/** The sequence matcher of src/kikey.ts, as a transition function over the state
    the closure of `Kikey` keeps: the registry (a JavaScript `Map` from callback to
    registration, iterated in insertion order), `prevKey`, `prevMod` and
    `isEnabled`. Every call of a client callback or of an `onComboChange` listener
    is an `Output`, listed in the order the calls happen. */
module Matcher {
  import opened Strings
  import opened Keys
  import opened Parser

  datatype Option<T> = None | Some(value: T)

  /** Callbacks are compared by identity only, so an opaque id stands for each. */
  type CallbackId = nat
  type ProgressId = nat

  /** One registry entry (src/kikey.ts:16-20). `onComboChange` is `None` for the
      default no-op listener, whose calls are not observable. */
  datatype Registration = Registration(callback: CallbackId, bindings: seq<Binding>, combo: nat,
                                       onComboChange: Option<ProgressId>)

  datatype Output = Fired(callback: CallbackId) | ComboChanged(listener: ProgressId, combo: nat)

  datatype State = State(registry: seq<Registration>, prevKey: string, prevMod: string, isEnabled: bool)

  /** The cursor points at a binding of a non-empty sequence. */
  predicate ValidRegistration(r: Registration)
  {
    |r.bindings| > 0 && r.combo < |r.bindings|
  }

  predicate WellFormed(regs: seq<Registration>)
  {
    forall i :: 0 <= i < |regs| ==> ValidRegistration(regs[i])
  }

  /** A `Map` holds each key once. */
  predicate DistinctCallbacks(regs: seq<Registration>)
  {
    Distinct(Callbacks(regs))
  }

  predicate Valid(s: State)
  {
    WellFormed(s.registry) && DistinctCallbacks(s.registry)
  }

  /** The registry's keys in iteration order. */
  function Callbacks(regs: seq<Registration>): (cbs: seq<CallbackId>)
    ensures |cbs| == |regs| && forall i :: 0 <= i < |regs| ==> cbs[i] == regs[i].callback
  {
    seq(|regs|, i requires 0 <= i < |regs| => regs[i].callback)
  }

  /** `registry.get(cb)`. */
  function Lookup(regs: seq<Registration>, cb: CallbackId): Option<Registration>
    decreases |regs|
  {
    if |regs| == 0 then None
    else if regs[0].callback == cb then Some(regs[0])
    else Lookup(regs[1..], cb)
  }

  /** The call of an optional listener with the cursor value `n`. */
  function Progress(listener: Option<ProgressId>, n: nat): seq<Output>
  {
    if listener.Some? then [ComboChanged(listener.value, n)] else []
  }

  /** The key-down `e` continues the registration: all five fields of the binding at
      the cursor equal the event's, and the cursor is at the start or the previous
      chord's key is the last released key or the last pressed modifier
      (src/kikey.ts:70-79). */
  predicate Advances(r: Registration, e: KeyEvent, prevKey: string, prevMod: string)
    requires ValidRegistration(r)
  {
    && r.bindings[r.combo] == EventBinding(e)
    && (r.combo == 0 || r.bindings[r.combo - 1].key == prevKey || r.bindings[r.combo - 1].key == prevMod)
  }

  /** The key-down `e` completes the registration's sequence. */
  predicate Completes(r: Registration, e: KeyEvent, prevKey: string, prevMod: string)
    requires ValidRegistration(r)
  {
    Advances(r, e, prevKey, prevMod) && r.combo + 1 == |r.bindings|
  }

  /** One iteration of the registry loop (src/kikey.ts:68-90): advance and report the
      new cursor, on completion also fire the callback and reset; otherwise report
      the old cursor and reset. */
  function StepRegistration(r: Registration, e: KeyEvent, prevKey: string, prevMod: string): (Registration, seq<Output>)
    requires ValidRegistration(r)
  {
    if Advances(r, e, prevKey, prevMod) then
      var combo := r.combo + 1;
      if combo == |r.bindings| then (r.(combo := 0), Progress(r.onComboChange, combo) + [Fired(r.callback)])
      else (r.(combo := combo), Progress(r.onComboChange, combo))
    else (r.(combo := 0), Progress(r.onComboChange, r.combo))
  }

  /** The whole registry loop for one key-down, entries in iteration order. */
  function StepRegistry(regs: seq<Registration>, e: KeyEvent, prevKey: string, prevMod: string)
    : (res: (seq<Registration>, seq<Output>))
    requires WellFormed(regs)
    ensures |res.0| == |regs|
    ensures forall i :: 0 <= i < |regs| ==> res.0[i] == StepRegistration(regs[i], e, prevKey, prevMod).0
    decreases |regs|
  {
    if |regs| == 0 then ([], [])
    else
      var done := StepRegistry(regs[..|regs| - 1], e, prevKey, prevMod);
      var last := StepRegistration(regs[|regs| - 1], e, prevKey, prevMod);
      (done.0 + [last.0], done.1 + last.1)
  }

  /** One more entry of the registry loop: its updated entry and its calls are
      appended to those of the entries before it. */
  lemma StepRegistryPrefix(regs: seq<Registration>, i: nat, e: KeyEvent, prevKey: string, prevMod: string)
    requires WellFormed(regs) && i < |regs|
    ensures WellFormed(regs[..i]) && WellFormed(regs[..i + 1])
    ensures var done, last := StepRegistry(regs[..i], e, prevKey, prevMod), StepRegistration(regs[i], e, prevKey, prevMod);
      StepRegistry(regs[..i + 1], e, prevKey, prevMod) == (done.0 + [last.0], done.1 + last.1)
  {
    assert regs[..i + 1][..i] == regs[..i];
    assert regs[..i + 1][i] == regs[i];
  }

  /** `handleKeyEvent` (src/kikey.ts:58-97): the new state and the calls made. Only
      cursors, `prevKey` and `prevMod` can change, and every cursor stays in range. */
  function Handle(s: State, e: KeyEvent): (res: (State, seq<Output>))
    requires WellFormed(s.registry)
    ensures WellFormed(res.0.registry) && |res.0.registry| == |s.registry|
    ensures forall i :: 0 <= i < |s.registry| ==> res.0.registry[i] == s.registry[i].(combo := res.0.registry[i].combo)
    ensures res.0.isEnabled == s.isEnabled
  {
    if !s.isEnabled then (s, [])
    else if e.kind == KeyUp && !IsModifierKey(e.key) then (s.(prevKey := Lower(e.key)), [])
    else if e.kind == KeyDown then
      var step := StepRegistry(s.registry, e, s.prevKey, s.prevMod);
      (s.(registry := step.0, prevMod := if IsModifierKey(e.key) then e.key else s.prevMod), step.1)
    else (s, [])
  }

  /** The events handled one after the other. */
  function Run(s: State, events: seq<KeyEvent>): (res: (State, seq<Output>))
    requires WellFormed(s.registry)
    ensures WellFormed(res.0.registry) && |res.0.registry| == |s.registry|
    ensures forall i :: 0 <= i < |s.registry| ==> res.0.registry[i] == s.registry[i].(combo := res.0.registry[i].combo)
    ensures res.0.isEnabled == s.isEnabled
    decreases |events|
  {
    if |events| == 0 then (s, [])
    else
      var first := Handle(s, events[0]);
      var rest := Run(first.0, events[1..]);
      (rest.0, first.1 + rest.1)
  }

  /** `registry.set(r.callback, r)`: an existing key keeps its position and gets the
      new value; a new key goes last. */
  function SetEntry(regs: seq<Registration>, r: Registration): seq<Registration>
    decreases |regs|
  {
    if |regs| == 0 then [r]
    else if regs[0].callback == r.callback then [r] + regs[1..]
    else [regs[0]] + SetEntry(regs[1..], r)
  }

  /** `registry.delete(cb)`. */
  function Delete(regs: seq<Registration>, cb: CallbackId): seq<Registration>
    decreases |regs|
  {
    if |regs| == 0 then []
    else if regs[0].callback == cb then Delete(regs[1..], cb)
    else [regs[0]] + Delete(regs[1..], cb)
  }

  /** The keys of `cbs` other than `cb`, in order. */
  function Without(cbs: seq<CallbackId>, cb: CallbackId): seq<CallbackId>
    decreases |cbs|
  {
    if |cbs| == 0 then []
    else if cbs[0] == cb then Without(cbs[1..], cb)
    else [cbs[0]] + Without(cbs[1..], cb)
  }

  /** `on(sequence, callback, onComboChange)` (src/kikey.ts:127-142): parse every
      token, then store a fresh registration with cursor 0 under the callback. */
  function Register(s: State, sequence: string, callback: CallbackId, onComboChange: Option<ProgressId>)
    : Result<State>
  {
    match ParseSequence(sequence)
    case Err(e) => Err(e)
    case Ok(bs) => Ok(s.(registry := SetEntry(s.registry, Registration(callback, bs, 0, onComboChange))))
  }

  /** `off(callback)` (src/kikey.ts:146-148). */
  function Unregister(s: State, callback: CallbackId): State
  {
    s.(registry := Delete(s.registry, callback))
  }

  // ---------------------------------------------------------------------------
  // The registry behaves as a Map.

  /** No key occurs twice. */
  predicate Distinct(cbs: seq<CallbackId>)
  {
    forall i, j :: 0 <= i < j < |cbs| ==> cbs[i] != cbs[j]
  }

  lemma {:induction false} SetEntryLookup(regs: seq<Registration>, r: Registration, c: CallbackId)
    ensures Lookup(SetEntry(regs, r), c) == if c == r.callback then Some(r) else Lookup(regs, c)
    decreases |regs|
  {
    if |regs| > 0 {
      SetEntryLookup(regs[1..], r, c);
    }
  }

  lemma {:induction false} SetEntryCallbacks(regs: seq<Registration>, r: Registration)
    ensures Callbacks(SetEntry(regs, r)) ==
              if r.callback in Callbacks(regs) then Callbacks(regs) else Callbacks(regs) + [r.callback]
    decreases |regs|
  {
    if |regs| > 0 {
      SetEntryCallbacks(regs[1..], r);
      assert Callbacks(regs) == [regs[0].callback] + Callbacks(regs[1..]);
      if regs[0].callback == r.callback {
        assert Callbacks(SetEntry(regs, r)) == [r.callback] + Callbacks(regs[1..]);
      } else {
        assert Callbacks(SetEntry(regs, r)) == [regs[0].callback] + Callbacks(SetEntry(regs[1..], r));
      }
    }
  }

  /** A key not yet in the registry is appended after all the others. */
  lemma {:induction false} SetEntryNew(regs: seq<Registration>, r: Registration)
    requires r.callback !in Callbacks(regs)
    ensures SetEntry(regs, r) == regs + [r]
    decreases |regs|
  {
    if |regs| > 0 {
      assert Callbacks(regs) == [regs[0].callback] + Callbacks(regs[1..]);
      SetEntryNew(regs[1..], r);
      assert [regs[0]] + (regs[1..] + [r]) == regs + [r];
    }
  }

  lemma {:induction false} SetEntryMembers(regs: seq<Registration>, r: Registration)
    ensures forall x :: x in SetEntry(regs, r) ==> x in regs || x == r
    decreases |regs|
  {
    if |regs| > 0 {
      SetEntryMembers(regs[1..], r);
    }
  }

  lemma {:induction false} DeleteLookup(regs: seq<Registration>, cb: CallbackId, c: CallbackId)
    ensures Lookup(Delete(regs, cb), c) == if c == cb then None else Lookup(regs, c)
    decreases |regs|
  {
    if |regs| > 0 {
      DeleteLookup(regs[1..], cb, c);
    }
  }

  lemma {:induction false} DeleteCallbacks(regs: seq<Registration>, cb: CallbackId)
    ensures Callbacks(Delete(regs, cb)) == Without(Callbacks(regs), cb)
    decreases |regs|
  {
    if |regs| > 0 {
      DeleteCallbacks(regs[1..], cb);
      assert Callbacks(regs) == [regs[0].callback] + Callbacks(regs[1..]);
      assert Callbacks(regs)[1..] == Callbacks(regs[1..]);
      if regs[0].callback != cb {
        assert Callbacks(Delete(regs, cb)) == [regs[0].callback] + Callbacks(Delete(regs[1..], cb));
      }
    }
  }

  lemma {:induction false} DeleteMembers(regs: seq<Registration>, cb: CallbackId)
    ensures forall x :: x in Delete(regs, cb) ==> x in regs
    decreases |regs|
  {
    if |regs| > 0 {
      DeleteMembers(regs[1..], cb);
    }
  }

  lemma {:induction false} WithoutKeepsOthers(cbs: seq<CallbackId>, cb: CallbackId)
    ensures forall x :: x in Without(cbs, cb) <==> x in cbs && x != cb
    ensures Distinct(cbs) ==> Distinct(Without(cbs, cb))
    decreases |cbs|
  {
    if |cbs| > 0 {
      WithoutKeepsOthers(cbs[1..], cb);
      if Distinct(cbs) {
        assert Distinct(cbs[1..]) by {
          forall i, j | 0 <= i < j < |cbs[1..]| ensures cbs[1..][i] != cbs[1..][j] {
            assert cbs[1..][i] == cbs[i + 1] && cbs[1..][j] == cbs[j + 1];
          }
        }
        assert cbs[0] !in cbs[1..];
      }
    }
  }

  /** A registry without the key `cb` is unchanged by deleting it. */
  lemma {:induction false} DeleteAbsent(regs: seq<Registration>, cb: CallbackId)
    requires cb !in Callbacks(regs)
    ensures Delete(regs, cb) == regs
    decreases |regs|
  {
    if |regs| > 0 {
      assert Callbacks(regs) == [regs[0].callback] + Callbacks(regs[1..]);
      DeleteAbsent(regs[1..], cb);
      assert [regs[0]] + regs[1..] == regs;
    }
  }

  /** `on` with a sequence that fails to parse leaves the registry as it was; one that
      parses installs exactly one fresh registration, replacing the callback's old
      one in place. */
  lemma RegisterIsMapSet(s: State, sequence: string, callback: CallbackId, onComboChange: Option<ProgressId>, c: CallbackId)
    requires Valid(s)
    ensures ParseSequence(sequence).Err? ==> Register(s, sequence, callback, onComboChange) == Err(ParseSequence(sequence).error)
    ensures ParseSequence(sequence).Ok? ==>
      var t := Register(s, sequence, callback, onComboChange).value;
      && Valid(t) && t.prevKey == s.prevKey && t.prevMod == s.prevMod && t.isEnabled == s.isEnabled
      && Lookup(t.registry, c) == (if c == callback
                                  then Some(Registration(callback, ParseSequence(sequence).value, 0, onComboChange))
                                  else Lookup(s.registry, c))
      && Callbacks(t.registry) == (if callback in Callbacks(s.registry) then Callbacks(s.registry)
                                   else Callbacks(s.registry) + [callback])
  {
    if ParseSequence(sequence).Ok? {
      var r := Registration(callback, ParseSequence(sequence).value, 0, onComboChange);
      assert ValidRegistration(r);
      SetEntryLookup(s.registry, r, c);
      SetEntryCallbacks(s.registry, r);
      SetEntryMembers(s.registry, r);
      var t := SetEntry(s.registry, r);
      forall i | 0 <= i < |t| ensures ValidRegistration(t[i]) {
        assert t[i] in t;
      }
    }
  }

  /** `off(cb)` removes only `cb`'s entry, keeps the order of the others, and changes
      nothing when `cb` is not registered. */
  lemma UnregisterIsMapDelete(s: State, callback: CallbackId, c: CallbackId)
    requires Valid(s)
    ensures Valid(Unregister(s, callback))
    ensures Lookup(Unregister(s, callback).registry, c) == if c == callback then None else Lookup(s.registry, c)
    ensures Callbacks(Unregister(s, callback).registry) == Without(Callbacks(s.registry), callback)
    ensures callback !in Callbacks(s.registry) ==> Unregister(s, callback) == s
  {
    DeleteLookup(s.registry, callback, c);
    DeleteCallbacks(s.registry, callback);
    DeleteMembers(s.registry, callback);
    WithoutKeepsOthers(Callbacks(s.registry), callback);
    var t := Delete(s.registry, callback);
    forall i | 0 <= i < |t| ensures ValidRegistration(t[i]) {
      assert t[i] in t;
    }
    if callback !in Callbacks(s.registry) {
      DeleteAbsent(s.registry, callback);
    }
  }

  // ---------------------------------------------------------------------------
  // Event handling.

  /** While disabled, no event changes anything and nothing is called. */
  lemma {:induction false} DisabledRunIsInert(s: State, events: seq<KeyEvent>)
    requires WellFormed(s.registry) && !s.isEnabled
    ensures Run(s, events) == (s, [])
    decreases |events|
  {
    if |events| > 0 {
      assert Handle(s, events[0]) == (s, []);
      DisabledRunIsInert(s, events[1..]);
      assert Run(s, events).0 == s;
      assert Run(s, events).1 == [];
    }
  }

  /** A key-up never moves a cursor, never calls anything and never touches
      `prevMod`; it sets `prevKey` to its lower-cased key unless it is a modifier. */
  lemma KeyUpEffect(s: State, e: KeyEvent)
    requires WellFormed(s.registry) && e.kind == KeyUp
    ensures Handle(s, e).1 == []
    ensures Handle(s, e).0 == if s.isEnabled && !IsModifierKey(e.key) then s.(prevKey := Lower(e.key)) else s
  {
  }

  /** Only a key-down of a modifier key changes `prevMod`, and it stores the key as
      reported, not lower-cased; it never changes `prevKey`. */
  lemma KeyDownEffect(s: State, e: KeyEvent)
    requires WellFormed(s.registry) && s.isEnabled && e.kind == KeyDown
    ensures Handle(s, e).0.prevKey == s.prevKey
    ensures Handle(s, e).0.prevMod == if IsModifierKey(e.key) then e.key else s.prevMod
  {
  }

  /** On a key-down each cursor advances by one when the registration matches and
      drops to 0 otherwise; completing a sequence also drops it to 0. */
  lemma KeyDownCursor(s: State, e: KeyEvent, i: nat)
    requires WellFormed(s.registry) && s.isEnabled && e.kind == KeyDown && i < |s.registry|
    ensures var r := s.registry[i];
      Handle(s, e).0.registry[i].combo ==
        if Advances(r, e, s.prevKey, s.prevMod) && r.combo + 1 < |r.bindings| then r.combo + 1 else 0
  {
  }

  /** The calls one registration makes for a key-down: an advance reports the new
      cursor, a completion then fires the callback once, and a mismatch reports the
      cursor it had before the reset. */
  lemma StepRegistrationCalls(r: Registration, e: KeyEvent, prevKey: string, prevMod: string)
    requires ValidRegistration(r) && r.onComboChange.Some?
    ensures var out := StepRegistration(r, e, prevKey, prevMod).1;
      if Completes(r, e, prevKey, prevMod) then out == [ComboChanged(r.onComboChange.value, |r.bindings|), Fired(r.callback)]
      else if Advances(r, e, prevKey, prevMod) then out == [ComboChanged(r.onComboChange.value, r.combo + 1)]
      else out == [ComboChanged(r.onComboChange.value, r.combo)]
  {
  }

  /** The registration of `c` completes on this key-down. */
  predicate FiresFor(r: Registration, c: CallbackId, e: KeyEvent, prevKey: string, prevMod: string)
    requires ValidRegistration(r)
  {
    r.callback == c && Completes(r, e, prevKey, prevMod)
  }

  predicate AnyFires(regs: seq<Registration>, c: CallbackId, e: KeyEvent, prevKey: string, prevMod: string)
    requires WellFormed(regs)
  {
    exists i :: 0 <= i < |regs| && FiresFor(regs[i], c, e, prevKey, prevMod)
  }

  lemma StepRegistrationFires(r: Registration, c: CallbackId, e: KeyEvent, prevKey: string, prevMod: string)
    requires ValidRegistration(r)
    ensures multiset(StepRegistration(r, e, prevKey, prevMod).1)[Fired(c)] ==
      if FiresFor(r, c, e, prevKey, prevMod) then 1 else 0
  {
  }

  /** Along the registry loop, a callback fires exactly once if its registration
      completes and not at all otherwise. */
  lemma {:induction false} StepRegistryFires(regs: seq<Registration>, e: KeyEvent, prevKey: string, prevMod: string, c: CallbackId)
    requires WellFormed(regs) && DistinctCallbacks(regs)
    ensures multiset(StepRegistry(regs, e, prevKey, prevMod).1)[Fired(c)] ==
      if AnyFires(regs, c, e, prevKey, prevMod) then 1 else 0
    decreases |regs|
  {
    if |regs| > 0 {
      var n := |regs| - 1;
      var init, last := regs[..n], regs[n];
      assert WellFormed(init);
      assert DistinctCallbacks(init) by {
        assert forall i :: 0 <= i < n ==> Callbacks(init)[i] == Callbacks(regs)[i];
      }
      StepRegistryFires(init, e, prevKey, prevMod, c);
      StepRegistrationFires(last, c, e, prevKey, prevMod);
      var outs := StepRegistry(regs, e, prevKey, prevMod).1;
      var o1, o2 := StepRegistry(init, e, prevKey, prevMod).1, StepRegistration(last, e, prevKey, prevMod).1;
      assert outs == o1 + o2;
      assert multiset(outs)[Fired(c)] == multiset(o1)[Fired(c)] + multiset(o2)[Fired(c)];
      AnyFiresSnoc(regs, c, e, prevKey, prevMod);
    }
  }

  /** A callback fires along a non-empty registry when it fires along all but the
      last registration or for the last one, and never in both places. */
  lemma AnyFiresSnoc(regs: seq<Registration>, c: CallbackId, e: KeyEvent, prevKey: string, prevMod: string)
    requires |regs| > 0 && WellFormed(regs) && DistinctCallbacks(regs)
    ensures WellFormed(regs[..|regs| - 1])
    ensures AnyFires(regs, c, e, prevKey, prevMod) <==>
      AnyFires(regs[..|regs| - 1], c, e, prevKey, prevMod) || FiresFor(regs[|regs| - 1], c, e, prevKey, prevMod)
    ensures !(AnyFires(regs[..|regs| - 1], c, e, prevKey, prevMod) && FiresFor(regs[|regs| - 1], c, e, prevKey, prevMod))
  {
    var n := |regs| - 1;
    var init, last := regs[..n], regs[n];
    assert WellFormed(init);
    if AnyFires(init, c, e, prevKey, prevMod) {
      var i :| 0 <= i < n && FiresFor(init[i], c, e, prevKey, prevMod);
      assert regs[i] == init[i];
      assert Callbacks(regs)[i] != Callbacks(regs)[n];
    }
    if AnyFires(regs, c, e, prevKey, prevMod) && !FiresFor(last, c, e, prevKey, prevMod) {
      var i :| 0 <= i < |regs| && FiresFor(regs[i], c, e, prevKey, prevMod);
      assert init[i] == regs[i];
    }
  }

  /** A key-down fires a callback exactly once when it completes that callback's
      registration and the matcher is enabled; otherwise the callback is not called. */
  lemma FiresExactlyOnce(s: State, e: KeyEvent, c: CallbackId)
    requires Valid(s)
    ensures multiset(Handle(s, e).1)[Fired(c)] ==
      if s.isEnabled && e.kind == KeyDown && AnyFires(s.registry, c, e, s.prevKey, s.prevMod) then 1 else 0
  {
    if s.isEnabled && e.kind == KeyDown {
      StepRegistryFires(s.registry, e, s.prevKey, s.prevMod, c);
    }
  }

  /** A registration of a single chord fires, exactly once, on every key-down that
      matches that chord, whatever came before. */
  lemma SingleChordFires(s: State, e: KeyEvent, j: nat)
    requires Valid(s) && s.isEnabled && e.kind == KeyDown && j < |s.registry|
    requires s.registry[j].bindings == [EventBinding(e)]
    ensures multiset(Handle(s, e).1)[Fired(s.registry[j].callback)] == 1
  {
    assert FiresFor(s.registry[j], s.registry[j].callback, e, s.prevKey, s.prevMod);
    FiresExactlyOnce(s, e, s.registry[j].callback);
  }

  /** Handling events in two batches is handling them at once. */
  lemma {:induction false} RunConcat(s: State, a: seq<KeyEvent>, b: seq<KeyEvent>)
    requires WellFormed(s.registry)
    ensures Run(s, a + b).0 == Run(Run(s, a).0, b).0
    ensures Run(s, a + b).1 == Run(s, a).1 + Run(Run(s, a).0, b).1
    decreases |a|
  {
    if |a| == 0 {
      assert a + b == b;
    } else {
      assert (a + b)[0] == a[0] && (a + b)[1..] == a[1..] + b;
      var first := Handle(s, a[0]);
      RunConcat(first.0, a[1..], b);
      assert Run(s, a + b).0 == Run(first.0, a[1..] + b).0;
      assert Run(s, a + b).1 == first.1 + Run(first.0, a[1..] + b).1;
      assert Run(s, a).0 == Run(first.0, a[1..]).0;
      assert Run(s, a).1 == first.1 + Run(first.0, a[1..]).1;
    }
  }

  /** Handling two events. */
  lemma RunPair(s: State, x: KeyEvent, y: KeyEvent)
    requires WellFormed(s.registry)
    ensures Run(s, [x, y]).0 == Handle(Handle(s, x).0, y).0
    ensures Run(s, [x, y]).1 == Handle(s, x).1 + Handle(Handle(s, x).0, y).1
  {
    assert [x, y][1..] == [y];
    assert [y][1..] == [];
    var u := Handle(s, x).0;
    assert Run(u, [y]).0 == Handle(u, y).0;
    assert Run(u, [y]).1 == Handle(u, y).1;
  }

  // ---------------------------------------------------------------------------
  // Pressing and releasing the chords of a registration fires it.

  /** The key-down of a chord, with its own key as the reported key. */
  function Press(b: Binding): KeyEvent
  {
    KeyEvent(KeyDown, b.ctrlKey, b.shiftKey, b.altKey, b.metaKey, b.key)
  }

  /** The key-up of a chord's key. */
  function Release(b: Binding): KeyEvent
  {
    KeyEvent(KeyUp, false, false, false, false, b.key)
  }

  /** Each chord pressed and released, one after the other. */
  function Replay(bs: seq<Binding>): (events: seq<KeyEvent>)
    ensures |events| == 2 * |bs|
    decreases |bs|
  {
    if |bs| == 0 then [] else Replay(bs[..|bs| - 1]) + [Press(bs[|bs| - 1]), Release(bs[|bs| - 1])]
  }

  /** After the first `k` chords are pressed and released, the registration's cursor
      is `k`, and the last chord's key is `prevKey` or `prevMod`. */
  lemma {:induction false} ReplayAdvances(s: State, j: nat, k: nat)
    requires WellFormed(s.registry) && s.isEnabled && j < |s.registry| && s.registry[j].combo == 0
    requires var bs := s.registry[j].bindings; forall i :: 0 <= i < |bs| ==> Lower(bs[i].key) == bs[i].key
    requires k < |s.registry[j].bindings|
    ensures var bs := s.registry[j].bindings; var t := Run(s, Replay(bs[..k])).0;
      && t.registry[j].combo == k
      && (k > 0 ==> bs[k - 1].key == t.prevKey || bs[k - 1].key == t.prevMod)
    decreases k
  {
    var bs := s.registry[j].bindings;
    if k == 0 {
      assert bs[..0] == [];
    } else {
      ReplayAdvances(s, j, k - 1);
      var b := bs[k - 1];
      assert bs[..k][..k - 1] == bs[..k - 1];
      assert Replay(bs[..k]) == Replay(bs[..k - 1]) + [Press(b), Release(b)];
      RunConcat(s, Replay(bs[..k - 1]), [Press(b), Release(b)]);
      var t := Run(s, Replay(bs[..k - 1])).0;
      assert t.registry[j].bindings == bs;
      assert EventBinding(Press(b)) == b;
      assert Advances(t.registry[j], Press(b), t.prevKey, t.prevMod);
      var u := Handle(t, Press(b)).0;
      assert u.registry[j].combo == k;
      assert u.prevMod == if IsModifierKey(b.key) then b.key else t.prevMod;
      var v := Handle(u, Release(b)).0;
      RunPair(t, Press(b), Release(b));
      assert v.registry[j].combo == k;
    }
  }

  /** Handling events keeps the callbacks, so a valid state stays valid. */
  lemma RunKeepsCallbacks(s: State, events: seq<KeyEvent>)
    requires Valid(s)
    ensures Callbacks(Run(s, events).0.registry) == Callbacks(s.registry)
    ensures Valid(Run(s, events).0)
  {
    var t := Run(s, events).0;
    assert Callbacks(t.registry) == Callbacks(s.registry);
  }

  /** Pressing the last chord when the cursor is on it fires the callback. */
  lemma PressLastFires(t: State, j: nat)
    requires Valid(t) && t.isEnabled && j < |t.registry|
    requires var r := t.registry[j]; r.combo + 1 == |r.bindings| && Lower(r.bindings[r.combo].key) == r.bindings[r.combo].key
    requires var r := t.registry[j];
      r.combo > 0 ==> r.bindings[r.combo - 1].key == t.prevKey || r.bindings[r.combo - 1].key == t.prevMod
    ensures var r := t.registry[j]; Fired(r.callback) in Handle(t, Press(r.bindings[r.combo])).1
  {
    var r := t.registry[j];
    var e := Press(r.bindings[r.combo]);
    assert EventBinding(e) == r.bindings[r.combo];
    assert FiresFor(r, r.callback, e, t.prevKey, t.prevMod);
    FiresExactlyOnce(t, e, r.callback);
  }

  /** Pressing and releasing, in order, every chord of a registration whose keys are
      lower-case fires its callback, from any state in which its cursor is 0. */
  lemma ReplayFires(s: State, j: nat)
    requires Valid(s) && s.isEnabled && j < |s.registry| && s.registry[j].combo == 0
    requires var bs := s.registry[j].bindings; forall i :: 0 <= i < |bs| ==> Lower(bs[i].key) == bs[i].key
    ensures Fired(s.registry[j].callback) in Run(s, Replay(s.registry[j].bindings)).1
  {
    var bs := s.registry[j].bindings;
    var k := |bs| - 1;
    var b := bs[k];
    var pre := Replay(bs[..k]);
    assert Replay(bs) == pre + [Press(b), Release(b)] by {
      assert bs[..k + 1] == bs;
    }
    ReplayAdvances(s, j, k);
    var t := Run(s, pre).0;
    RunKeepsCallbacks(s, pre);
    assert t.registry[j].callback == s.registry[j].callback && t.registry[j].bindings == bs;
    PressLastFires(t, j);
    RunConcat(s, pre, [Press(b), Release(b)]);
    RunPair(t, Press(b), Release(b));
  }
}
