/** The object `Kikey()` returns (src/kikey.ts:38-222): the closure's mutable state
    as fields, and one method per operation. Every method is proved against the
    transition functions of the Matcher and Recorder modules. Calls of client
    callbacks are appended to `trace`. */
module Instance {
  import opened Strings
  import opened Keys
  import opened Parser
  import opened Matcher
  import opened Recorder

  /** One iteration of the registry loop of `handleKeyEvent` (src/kikey.ts:68-90),
      `key` being the event's lower-cased key: the registration as it is left and
      the listener and callback calls made, in order. */
  method StepEntry(r: Registration, e: KeyEvent, key: string, prevKey: string, prevMod: string)
    returns (next: Registration, calls: seq<Output>)
    requires ValidRegistration(r) && key == Lower(e.key)
    ensures (next, calls) == StepRegistration(r, e, prevKey, prevMod)
  {
    var b := r.bindings[r.combo];
    calls := [];
    if && b.ctrlKey == e.ctrlKey && b.shiftKey == e.shiftKey && b.altKey == e.altKey
       && b.metaKey == e.metaKey && b.key == key
       && (r.combo == 0 || r.bindings[r.combo - 1].key == prevKey || r.bindings[r.combo - 1].key == prevMod)
    {
      assert b == EventBinding(e);
      next := r.(combo := r.combo + 1);
      if r.onComboChange.Some? {
        calls := calls + [ComboChanged(r.onComboChange.value, next.combo)];
      }
      assert calls == Progress(r.onComboChange, next.combo);
      if next.combo == |r.bindings| {
        calls := calls + [Fired(r.callback)];
        next := next.(combo := 0);
      }
    } else {
      if r.onComboChange.Some? {
        calls := calls + [ComboChanged(r.onComboChange.value, r.combo)];
      }
      assert calls == Progress(r.onComboChange, r.combo);
      next := r.(combo := 0);
    }
  }

  /** The registry loop of a key-down (src/kikey.ts:68-90): each entry, in
      iteration order, is updated in place, and the calls are collected in order. */
  method StepAll(regs: seq<Registration>, e: KeyEvent, key: string, prevKey: string, prevMod: string)
    returns (entries: seq<Registration>, calls: seq<Output>)
    requires WellFormed(regs) && key == Lower(e.key)
    ensures (entries, calls) == StepRegistry(regs, e, prevKey, prevMod)
  {
    entries, calls := regs, [];
    var i := 0;
    while i < |entries|
      invariant 0 <= i <= |entries| == |regs|
      invariant entries[..i] == StepRegistry(regs[..i], e, prevKey, prevMod).0
      invariant entries[i..] == regs[i..]
      invariant calls == StepRegistry(regs[..i], e, prevKey, prevMod).1
    {
      assert entries[i] == regs[i];
      StepRegistryPrefix(regs, i, e, prevKey, prevMod);
      ghost var done := StepRegistry(regs[..i], e, prevKey, prevMod);
      var next, more := StepEntry(entries[i], e, key, prevKey, prevMod);
      entries := entries[i := next];
      calls := calls + more;
      assert entries[..i + 1] == done.0 + [next];
      assert entries[i + 1..] == regs[i + 1..];
      i := i + 1;
    }
    assert regs[..i] == regs;
    assert entries[..i] == entries;
  }

  /** `tokens.map(makeBinding)` (src/kikey.ts:136): the tokens are parsed in order
      and the first one that is refused ends the parse. */
  method ParseTokens(tokens: seq<string>) returns (r: Result<seq<Binding>>)
    ensures r == ParseAll(tokens)
  {
    var bindings: seq<Binding> := [];
    var i := 0;
    while i < |tokens|
      invariant 0 <= i <= |tokens| && |bindings| == i
      invariant forall j :: 0 <= j < i ==> MakeBinding(tokens[j]) == Ok(bindings[j])
    {
      var b := ParseBinding(tokens[i]);
      if b.Err? {
        ParseAllErr(tokens, i);
        return Err(b.error);
      }
      ParsedPrefix(tokens, bindings, b.value);
      bindings := bindings + [b.value];
      i := i + 1;
    }
    ParseAllOk(tokens, bindings);
    return Ok(bindings);
  }

  /** The two-index scan of `stopRecord` (src/kikey.ts:185-217): one token for each
      key-down directly followed by a key-up, in order. */
  method ScanChords(record: seq<KeyEvent>) returns (sequence: seq<string>)
    ensures sequence == Chords(record)
  {
    sequence := [];
    var slow, fast := 0, 1;
    while slow < |record|
      invariant 0 <= slow <= |record| && fast == slow + 1
      invariant sequence + Chords(record[slow..]) == Chords(record)
    {
      var slowKey := record[slow];
      assert record[slow..][1..] == record[slow + 1..];
      if slowKey.kind == KeyDown && fast < |record| && record[fast].kind == KeyUp {
        var b := BuildToken(slowKey);
        sequence := sequence + [b];
      }
      slow, fast := slow + 1, fast + 1;
    }
    assert record[slow..] == [];
  }

  /** The token one key-down contributes (src/kikey.ts:191-212): the letters of the
      modifiers concatenated and spread out with `-`, then the key part. */
  method BuildToken(e: KeyEvent) returns (b: string)
    ensures b == ChordToken(e)
  {
    b := "";
    b := b + (if e.ctrlKey then "C" else "");
    b := b + (if e.shiftKey then "S" else "");
    b := b + (if e.altKey then "A" else "");
    b := b + (if e.metaKey then "M" else "");
    assert Chars(b) == Letters(e);
    b := Join(Chars(b), '-');
    var key := Lower(e.key);
    if key == " " {
      key := "space";
    } else if key == "-" {
      key := "dash";
    } else if IsModifierKey(key) {
      key := "";
    }
    if |b| > 0 && |key| > 0 {
      b := b + "-" + key;
    } else if |b| == 0 {
      b := key;
    }
  }

  class Kikey {
    var registry: seq<Registration>
    var prevKey: string
    var prevMod: string
    var isEnabled: bool
    /** Whether `pushEvent` is attached, between `startRecord` and `stopRecord`. */
    var recording: bool
    var record: seq<KeyEvent>
    var trace: seq<Output>

    /** The matcher's part of the state. */
    function Current(): State
      reads this
    {
      State(registry, prevKey, prevMod, isEnabled)
    }

    ghost predicate Valid()
      reads this
    {
      Matcher.Valid(Current())
    }

    /** `Kikey()`: an empty registry, enabled, not recording. */
    constructor ()
      ensures Valid()
      ensures Current() == State([], "", "", true)
      ensures !recording && record == [] && trace == []
    {
      registry, prevKey, prevMod, isEnabled := [], "", "", true;
      recording, record, trace := false, [], [];
    }

    /** `handleKeyEvent` (src/kikey.ts:58-97). */
    method HandleKeyEvent(e: KeyEvent)
      requires Valid()
      modifies this
      ensures Valid()
      ensures Current() == Handle(old(Current()), e).0
      ensures trace == old(trace) + Handle(old(Current()), e).1
      ensures recording == old(recording) && record == old(record)
    {
      if !isEnabled {
        return;
      }
      if e.kind == KeyUp && !IsModifierKey(e.key) {
        prevKey := Lower(e.key);
      } else if e.kind == KeyDown {
        var calls;
        registry, calls := StepAll(registry, e, Lower(e.key), prevKey, prevMod);
        trace := trace + calls;
        ghost var t := Handle(old(Current()), e).0;
        assert Callbacks(t.registry) == Callbacks(old(registry));
        if IsModifierKey(e.key) {
          prevMod := e.key;
        }
      }
    }

    /** `pushEvent` (src/kikey.ts:108-110). */
    method PushEvent(e: KeyEvent)
      modifies this`record
      ensures record == old(record) + [e]
    {
      record := record + [e];
    }

    /** One event from the host: the matcher's listener runs first, then the
        recorder's while it is attached (the order they were added in). */
    method Dispatch(e: KeyEvent)
      requires Valid()
      modifies this
      ensures Valid()
      ensures Current() == Handle(old(Current()), e).0
      ensures trace == old(trace) + Handle(old(Current()), e).1
      ensures recording == old(recording)
      ensures record == if recording then old(record) + [e] else old(record)
    {
      HandleKeyEvent(e);
      if recording {
        PushEvent(e);
      }
    }

    /** `on(sequence, callback, onComboChange)` (src/kikey.ts:127-142): every token is
        parsed before the registry is touched, so a failure leaves it unchanged. */
    method On(sequence: string, callback: CallbackId, onComboChange: Option<ProgressId>) returns (outcome: Result<()>)
      requires Valid()
      modifies this`registry
      ensures Valid()
      ensures outcome.Ok? <==> ParseSequence(sequence).Ok?
      ensures outcome.Err? ==> outcome.error == ParseSequence(sequence).error && registry == old(registry)
      ensures outcome.Ok? ==> Current() == Register(old(Current()), sequence, callback, onComboChange).value
    {
      var tokens := Tokenize(sequence);
      if |tokens| == 0 {
        return Err(EmptySequence);
      }
      var parsed := ParseTokens(tokens);
      if parsed.Err? {
        return Err(parsed.error);
      }
      var bindings := parsed.value;
      RegisterIsMapSet(Current(), sequence, callback, onComboChange, callback);
      registry := SetEntry(registry, Registration(callback, bindings, 0, onComboChange));
      return Ok(());
    }

    /** `off(callback)` (src/kikey.ts:146-148). */
    method Off(callback: CallbackId)
      requires Valid()
      modifies this`registry
      ensures Valid()
      ensures Current() == Unregister(old(Current()), callback)
    {
      UnregisterIsMapDelete(Current(), callback, callback);
      registry := Delete(registry, callback);
    }

    /** `enable()` (src/kikey.ts:152-154): cursors are left as they are. */
    method Enable()
      modifies this`isEnabled
      ensures isEnabled
    {
      isEnabled := true;
    }

    /** `disable()` (src/kikey.ts:158-160): cursors are left as they are. */
    method Disable()
      modifies this`isEnabled
      ensures !isEnabled
    {
      isEnabled := false;
    }

    /** `startRecord()` (src/kikey.ts:164-170): attach the recorder. */
    method StartRecord()
      modifies this`recording
      ensures recording
    {
      recording := true;
    }

    /** `stopRecord()` (src/kikey.ts:174-220): detach the recorder, reconstruct the
        notation with the two-index scan, then empty the buffer. */
    method StopRecord() returns (notation: string)
      modifies this`recording, this`record
      ensures !recording && record == []
      ensures notation == Reconstruct(old(record))
    {
      recording := false;
      var sequence := ScanChords(record);
      notation := Join(sequence, ' ');
      record := [];
    }
  }
}
