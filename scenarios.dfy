/** The behaviour the repository's tests describe (kikey.test.js), each scenario
    started from a fresh instance holding only the registration under test, and the
    recorder-to-matcher round trip. */
module Scenarios {
  import opened Strings
  import opened Keys
  import opened Parser
  import opened Matcher
  import opened Recorder
  import opened Instance

  /** The state of a fresh `Kikey()`. */
  const Fresh := State([], "", "", true)

  function Down(ctrl: bool, shift: bool, alt: bool, meta: bool, key: string): KeyEvent
  {
    KeyEvent(KeyDown, ctrl, shift, alt, meta, key)
  }

  function Up(key: string): KeyEvent
  {
    KeyEvent(KeyUp, false, false, false, false, key)
  }

  function Plain(key: string): Binding
  {
    Binding(false, false, false, false, key)
  }

  lemma SplitTwo(a: string, b: string, sep: char)
    requires sep !in a && sep !in b
    ensures Split(a + [sep] + b, sep) == [a, b]
  {
    SplitConcat(a, b, sep);
    SplitNoSep(a, sep);
    SplitNoSep(b, sep);
  }

  lemma SplitThree(a: string, b: string, c: string, sep: char)
    requires sep !in a && sep !in b && sep !in c
    ensures Split(a + [sep] + b + [sep] + c, sep) == [a, b, c]
  {
    var rest := b + [sep] + c;
    assert Split(a + [sep] + rest, sep) == [a, b, c] by {
      SplitConcat(a, rest, sep);
      SplitTwo(b, c, sep);
      SplitNoSep(a, sep);
      assert [a] + [b, c] == [a, b, c];
    }
    assert a + [sep] + b + [sep] + c == a + [sep] + rest;
  }

  /** A token of three valid segments reads its flags off the segments and its key
      off the last one. */
  lemma ThreeSegments(a: string, b: string, c: string)
    requires '-' !in a && '-' !in b && '-' !in c
    requires ValidSegment(a) && ValidSegment(b) && ValidSegment(c)
    ensures var segs := [a, b, c];
      MakeBinding(a + "-" + b + "-" + c) == Ok(Binding("C" in segs, "S" in segs, "A" in segs, "M" in segs, SegmentKey(c)))
  {
    var token := a + "-" + b + "-" + c;
    assert token == a + ['-'] + b + ['-'] + c;
    SplitThree(a, b, c, '-');
    assert AllValid([a, b, c]);
    AcceptedFields(token);
  }

  // ---------------------------------------------------------------------------
  // makeBinding (kikey.test.js:5-55)

  lemma CtrlS()
    ensures MakeBinding("C-s") == Ok(Binding(true, false, false, false, "s"))
  {
    assert "C-s" == "C" + ['-'] + "s";
    SplitTwo("C", "s", '-');
  }

  lemma CtrlShiftS()
    ensures MakeBinding("C-S-s") == Ok(Binding(true, true, false, false, "s"))
  {
    assert "C-S-s" == "C" + ['-'] + "S" + ['-'] + "s";
    SplitThree("C", "S", "s", '-');
  }

  lemma AltMetaDash()
    ensures MakeBinding("A-M-dash") == Ok(Binding(false, false, true, true, "-"))
  {
    assert ValidSegment("dash");
    ThreeSegments("A", "M", "dash");
    assert "A" + "-" + "M" + "-" + "dash" == "A-M-dash";
  }

  lemma SpaceName()
    ensures MakeBinding("space") == Ok(Plain(" "))
  {
    SplitNoSep("space", '-');
    assert ValidSegment("space");
  }

  lemma DashName()
    ensures MakeBinding("dash") == Ok(Plain("-"))
  {
    SplitNoSep("dash", '-');
    assert ValidSegment("dash");
  }

  lemma EscapeName()
    ensures MakeBinding("escape") == Ok(Plain("escape"))
  {
    SplitNoSep("escape", '-');
    assert ValidSegment("escape");
  }

  lemma RejectedTokens()
    ensures MakeBinding("") == Err(InvalidBinding)
    ensures MakeBinding("A--") == Err(InvalidBinding)
    ensures MakeBinding("--") == Err(InvalidBinding)
  {
    EmptyTokenRejected();
    assert "A--" == "A" + "--" + "";
    DoubleDashRejected("A", "");
    assert "--" == "" + "--" + "";
    DoubleDashRejected("", "");
  }

  /** The segments are not lower-cased: after `C-`, an upper-case `S` is the key. */
  lemma UpperCaseKeyKept()
    ensures MakeBinding("C-S") == Ok(Binding(true, true, false, false, "S"))
  {
    SplitTwo("C", "S", '-');
    assert "C-S" == "C" + ['-'] + "S";
  }

  // ---------------------------------------------------------------------------
  // The matcher (kikey.test.js:79-186)

  /** A fresh instance after a single successful `on`. */
  function Single(callback: CallbackId, bs: seq<Binding>, listener: Option<ProgressId>): State
  {
    State([Registration(callback, bs, 0, listener)], "", "", true)
  }

  lemma OneToken(t: string)
    requires t != "" && ' ' !in t
    ensures Tokenize(t) == [t]
  {
    SplitNoSep(t, ' ');
  }

  lemma TwoTokens(a: string, b: string)
    requires a != "" && b != "" && ' ' !in a && ' ' !in b
    ensures Tokenize(a + " " + b) == [a, b]
  {
    assert a + " " + b == a + [' '] + b;
    SplitTwo(a, b, ' ');
    NonEmptyKeeps([a, b]);
  }

  lemma ThreeTokens(a: string, b: string, c: string)
    requires a != "" && b != "" && c != "" && ' ' !in a && ' ' !in b && ' ' !in c
    ensures Tokenize(a + " " + b + " " + c) == [a, b, c]
  {
    assert a + " " + b + " " + c == a + [' '] + b + [' '] + c;
    SplitThree(a, b, c, ' ');
    NonEmptyKeeps([a, b, c]);
  }

  lemma ParseAllCons(t: string, ts: seq<string>, b: Binding, bs: seq<Binding>)
    requires MakeBinding(t) == Ok(b) && ParseAll(ts) == Ok(bs)
    ensures ParseAll([t] + ts) == Ok([b] + bs)
  {
    assert ([t] + ts)[1..] == ts;
  }

  /** A sequence of one token parses to that token's binding. */
  lemma ParsedOne(sequence: string, t: string, b: Binding)
    requires Tokenize(sequence) == [t] && MakeBinding(t) == Ok(b)
    ensures ParseSequence(sequence) == Ok([b])
  {
    ParseAllCons(t, [], b, []);
    assert [t] + [] == [t] && [b] + [] == [b];
  }

  /** Two tokens that parse map to their two bindings, in order. */
  lemma ParseAllPair(t1: string, t2: string, b1: Binding, b2: Binding)
    requires MakeBinding(t1) == Ok(b1) && MakeBinding(t2) == Ok(b2)
    ensures ParseAll([t1, t2]) == Ok([b1, b2])
  {
    ParseAllCons(t2, [], b2, []);
    assert [t2] + [] == [t2] && [b2] + [] == [b2];
    ParseAllCons(t1, [t2], b1, [b2]);
    assert [t1] + [t2] == [t1, t2] && [b1] + [b2] == [b1, b2];
  }

  /** A sequence of two tokens parses to their bindings, in order. */
  lemma ParsedTwo(sequence: string, t1: string, t2: string, b1: Binding, b2: Binding)
    requires Tokenize(sequence) == [t1, t2] && MakeBinding(t1) == Ok(b1) && MakeBinding(t2) == Ok(b2)
    ensures ParseSequence(sequence) == Ok([b1, b2])
  {
    ParseAllPair(t1, t2, b1, b2);
  }

  /** A sequence of three tokens parses to their bindings, in order. */
  lemma ParsedThree(sequence: string, t1: string, t2: string, t3: string, b1: Binding, b2: Binding, b3: Binding)
    requires Tokenize(sequence) == [t1, t2, t3]
    requires MakeBinding(t1) == Ok(b1) && MakeBinding(t2) == Ok(b2) && MakeBinding(t3) == Ok(b3)
    ensures ParseSequence(sequence) == Ok([b1, b2, b3])
  {
    ParseAllTriple(t1, t2, t3, b1, b2, b3);
  }

  /** Three tokens that parse map to their three bindings, in order. */
  lemma ParseAllTriple(t1: string, t2: string, t3: string, b1: Binding, b2: Binding, b3: Binding)
    requires MakeBinding(t1) == Ok(b1) && MakeBinding(t2) == Ok(b2) && MakeBinding(t3) == Ok(b3)
    ensures ParseAll([t1, t2, t3]) == Ok([b1, b2, b3])
  {
    ParseAllPair(t2, t3, b2, b3);
    ParseAllCons(t1, [t2, t3], b1, [b2, b3]);
    assert [t1] + [t2, t3] == [t1, t2, t3] && [b1] + [b2, b3] == [b1, b2, b3];
  }

  /** `on` into a fresh instance stores one registration with cursor 0. */
  lemma RegisterFresh(sequence: string, bs: seq<Binding>, callback: CallbackId, listener: Option<ProgressId>)
    requires ParseSequence(sequence) == Ok(bs)
    ensures Register(Fresh, sequence, callback, listener) == Ok(Single(callback, bs, listener))
  {
  }

  /** The registry loop over a single registration is that registration's step. */
  lemma StepOne(r: Registration, e: KeyEvent, prevKey: string, prevMod: string)
    requires ValidRegistration(r)
    ensures StepRegistry([r], e, prevKey, prevMod).0 == [StepRegistration(r, e, prevKey, prevMod).0]
    ensures StepRegistry([r], e, prevKey, prevMod).1 == StepRegistration(r, e, prevKey, prevMod).1
  {
    assert [r][..0] == [];
  }

  /** A sequence of one token registers as one registration of its binding. */
  lemma RegisterOne(token: string, b: Binding, callback: CallbackId, listener: Option<ProgressId>)
    requires token != "" && ' ' !in token && MakeBinding(token) == Ok(b)
    ensures Register(Fresh, token, callback, listener) == Ok(Single(callback, [b], listener))
  {
    OneToken(token);
    ParsedOne(token, token, b);
    RegisterFresh(token, [b], callback, listener);
  }

  /** `on("C-s")` on a fresh instance registers Ctrl+s. */
  lemma SimpleBindingRegisters()
    ensures Register(Fresh, "C-s", 1, None) == Ok(Single(1, [Binding(true, false, false, false, "s")], None))
  {
    CtrlS();
    assert "C-s" == ['C', '-', 's'];
    RegisterOne("C-s", Binding(true, false, false, false, "s"), 1, None);
  }

  /** "C-s" fires on Ctrl+s, and no longer once `off` has removed it. */
  lemma SimpleBinding()
    ensures var s := Single(1, [Binding(true, false, false, false, "s")], None);
      && Handle(s, Down(true, false, false, false, "s")) == (s, [Fired(1)])
      && Handle(Unregister(s, 1), Down(true, false, false, false, "s")).1 == []
  {
    var b := Binding(true, false, false, false, "s");
    var e := Down(true, false, false, false, "s");
    assert Lower("s") == "s";
    assert EventBinding(e) == b;
    SingleFiresUnchanged(b, e);
    UnregisteredSilent(b, e);
  }

  /** `on("A")` on a fresh instance registers the Alt key. */
  lemma ModifierOnlyRegisters()
    ensures Register(Fresh, "A", 1, None) == Ok(Single(1, [Binding(false, false, true, false, "alt")], None))
  {
    LoneModifierLetter('A');
    RegisterOne("A", Binding(false, false, true, false, "alt"), 1, None);
  }

  /** A lone modifier letter binds the modifier key itself: "A" fires on the Alt key. */
  lemma ModifierOnlyBinding()
    ensures Handle(Single(1, [Binding(false, false, true, false, "alt")], None), Down(false, false, true, false, "alt")).1 == [Fired(1)]
  {
    var b := Binding(false, false, true, false, "alt");
    var e := Down(false, false, true, false, "alt");
    assert Lower("alt") == "alt";
    assert EventBinding(e) == b;
    SingleFires(b, e);
  }

  /** A one-chord registration fired by a key that is no modifier is left as it was. */
  lemma SingleFiresUnchanged(b: Binding, e: KeyEvent)
    requires e.kind == KeyDown && EventBinding(e) == b && !IsModifierKey(e.key)
    ensures Handle(Single(1, [b], None), e) == (Single(1, [b], None), [Fired(1)])
  {
    var r := Registration(1, [b], 0, None);
    assert Single(1, [b], None).registry == [r];
    assert Completes(r, e, "", "");
    assert StepRegistration(r, e, "", "") == (r, [Fired(1)]) by {
      assert Progress(None, 1) + [Fired(1)] == [Fired(1)];
    }
    StepOne(r, e, "", "");
  }

  /** Once its one registration is removed, an instance calls nothing. */
  lemma UnregisteredSilent(b: Binding, e: KeyEvent)
    ensures Unregister(Single(1, [b], None), 1).registry == []
    ensures Handle(Unregister(Single(1, [b], None), 1), e).1 == []
  {
    var r := Registration(1, [b], 0, None);
    assert Single(1, [b], None).registry == [r];
    assert Delete([r], 1) == Delete([r][1..], 1);
    assert [r][1..] == [];
    assert Delete([], 1) == [];
    assert Unregister(Single(1, [b], None), 1) == State([], "", "", true);
    assert StepRegistry([], e, "", "") == ([], []);
  }

  /** A one-chord registration fires on the key-down whose binding is its chord. */
  lemma SingleFires(b: Binding, e: KeyEvent)
    requires e.kind == KeyDown && EventBinding(e) == b
    ensures Handle(Single(1, [b], None), e).1 == [Fired(1)]
  {
    var r := Registration(1, [b], 0, None);
    assert Single(1, [b], None).registry == [r];
    assert Completes(r, e, "", "");
    assert StepRegistration(r, e, "", "").1 == [Fired(1)] by {
      assert Progress(None, 1) + [Fired(1)] == [Fired(1)];
    }
    StepOne(r, e, "", "");
  }

  /** A key-down on an instance with one registration. */
  lemma DownOne(s: State, e: KeyEvent)
    requires WellFormed(s.registry) && |s.registry| == 1 && s.isEnabled && e.kind == KeyDown
    ensures Handle(s, e).0 == s.(registry := [StepRegistration(s.registry[0], e, s.prevKey, s.prevMod).0],
                                 prevMod := if IsModifierKey(e.key) then e.key else s.prevMod)
    ensures Handle(s, e).1 == StepRegistration(s.registry[0], e, s.prevKey, s.prevMod).1
  {
    assert s.registry == [s.registry[0]];
    StepOne(s.registry[0], e, s.prevKey, s.prevMod);
  }

  /** Handling a non-empty list of events: the first, then the rest. */
  lemma RunCons(s: State, events: seq<KeyEvent>)
    requires WellFormed(s.registry) && |events| > 0
    ensures Run(s, events).0 == Run(Handle(s, events[0]).0, events[1..]).0
    ensures Run(s, events).1 == Handle(s, events[0]).1 + Run(Handle(s, events[0]).0, events[1..]).1
  {
  }

  /** Handling three events whose individual effects are known. */
  lemma RunThree(s: State, x: KeyEvent, y: KeyEvent, z: KeyEvent,
                 s1: State, s2: State, s3: State, o1: seq<Output>, o2: seq<Output>, o3: seq<Output>)
    requires WellFormed(s.registry) && Handle(s, x) == (s1, o1)
    requires WellFormed(s1.registry) && Handle(s1, y) == (s2, o2)
    requires WellFormed(s2.registry) && Handle(s2, z) == (s3, o3)
    ensures Run(s, [x, y, z]) == (s3, o1 + (o2 + o3))
  {
    var events := [x, y, z];
    assert events[0] == x && events[1..] == [y, z];
    RunCons(s, events);
    assert Handle(s, events[0]).0 == s1 && Handle(s, events[0]).1 == o1;
    RunPair(s1, y, z);
    assert Run(s1, [y, z]).0 == s3 && Run(s1, [y, z]).1 == o2 + o3;
    assert Run(s, events).0 == s3;
    assert Run(s, events).1 == o1 + (o2 + o3);
  }

  /** A lower-case letter or digit is its own lower-casing and names no modifier. */
  lemma PlainChar(k: string)
    requires |k| == 1 && !('A' <= k[0] <= 'Z')
    ensures Lower(k) == k && !IsModifierKey(k)
  {
  }

  /** An instance holding a registration of `bs` under callback 1, its cursor at
      `combo`. */
  function At(bs: seq<Binding>, combo: nat, prevKey: string, prevMod: string, listener: Option<ProgressId>): State
  {
    State([Registration(1, bs, combo, listener)], prevKey, prevMod, true)
  }

  /** The `prevMod` after a key-down of `key`. */
  function NextMod(key: string, prevMod: string): string
  {
    if IsModifierKey(key) then key else prevMod
  }

  /** A key-down that continues the sequence without finishing it reports the new
      cursor. */
  lemma PressAdvances(bs: seq<Binding>, combo: nat, prevKey: string, prevMod: string, l: Option<ProgressId>, e: KeyEvent)
    requires combo + 1 < |bs| && e.kind == KeyDown && EventBinding(e) == bs[combo]
    requires combo == 0 || bs[combo - 1].key == prevKey || bs[combo - 1].key == prevMod
    ensures Handle(At(bs, combo, prevKey, prevMod, l), e)
         == (At(bs, combo + 1, prevKey, NextMod(e.key, prevMod), l), Progress(l, combo + 1))
  {
    DownOne(At(bs, combo, prevKey, prevMod, l), e);
  }

  /** A key-down that finishes the sequence reports the final cursor, fires the
      callback and resets the cursor. */
  lemma PressCompletes(bs: seq<Binding>, combo: nat, prevKey: string, prevMod: string, l: Option<ProgressId>, e: KeyEvent)
    requires combo + 1 == |bs| && e.kind == KeyDown && EventBinding(e) == bs[combo]
    requires combo == 0 || bs[combo - 1].key == prevKey || bs[combo - 1].key == prevMod
    ensures Handle(At(bs, combo, prevKey, prevMod, l), e)
         == (At(bs, 0, prevKey, NextMod(e.key, prevMod), l), Progress(l, combo + 1) + [Fired(1)])
  {
    DownOne(At(bs, combo, prevKey, prevMod, l), e);
  }

  /** A key-down that does not continue the sequence reports the old cursor and
      resets it. */
  lemma PressMismatch(bs: seq<Binding>, combo: nat, prevKey: string, prevMod: string, l: Option<ProgressId>, e: KeyEvent)
    requires combo < |bs| && e.kind == KeyDown
    requires EventBinding(e) != bs[combo] || (combo > 0 && bs[combo - 1].key != prevKey && bs[combo - 1].key != prevMod)
    ensures Handle(At(bs, combo, prevKey, prevMod, l), e)
         == (At(bs, 0, prevKey, NextMod(e.key, prevMod), l), Progress(l, combo))
  {
    DownOne(At(bs, combo, prevKey, prevMod, l), e);
  }

  /** A key-up records its key, unless it is a modifier's. */
  lemma ReleaseKey(bs: seq<Binding>, combo: nat, prevKey: string, prevMod: string, l: Option<ProgressId>, key: string)
    requires combo < |bs|
    ensures Handle(At(bs, combo, prevKey, prevMod, l), Up(key))
         == (At(bs, combo, if IsModifierKey(key) then prevKey else Lower(key), prevMod, l), [])
  {
  }

  const SAs := Binding(false, true, true, false, "s")

  /** "S-A-s a" fires when the first chord's key is released before the second
      chord (kikey.test.js:144-151). */
  lemma ShiftAltS()
    ensures MakeBinding("S-A-s") == Ok(SAs)
  {
    ThreeSegments("S", "A", "s");
    assert "S" + "-" + "A" + "-" + "s" == "S-A-s";
  }

  const ShiftAltSThenA: string := "S-A-s a"

  lemma TwoChordsTokens()
    ensures Tokenize(ShiftAltSThenA) == ["S-A-s", "a"]
  {
    assert ShiftAltSThenA == "S-A-s" + " " + "a";
    TwoTokens("S-A-s", "a");
  }

  lemma TwoChordsParsed()
    ensures ParseSequence(ShiftAltSThenA) == Ok([SAs, Plain("a")])
  {
    TwoChordsTokens();
    ShiftAltS();
    LoneCharacter('a');
    ParsedTwo(ShiftAltSThenA, "S-A-s", "a", SAs, Plain("a"));
  }

  lemma TwoChordsRegistered()
    ensures Register(Fresh, ShiftAltSThenA, 1, None) == Ok(Single(1, [SAs, Plain("a")], None))
  {
    TwoChordsParsed();
    RegisterFresh(ShiftAltSThenA, [SAs, Plain("a")], 1, None);
  }

  lemma TwoChordsReleased()
    ensures Run(Single(1, [SAs, Plain("a")], None),
                [Down(false, true, true, false, "s"), Up("s"), Down(false, false, false, false, "a")]).1 == [Fired(1)]
  {
    var bs := [SAs, Plain("a")];
    var e1, e3 := Down(false, true, true, false, "s"), Down(false, false, false, false, "a");
    PlainChar("s");
    PlainChar("a");
    PressAdvances(bs, 0, "", "", None, e1);
    ReleaseKey(bs, 1, "", "", None, "s");
    PressCompletes(bs, 1, "s", "", None, e3);
    assert Progress(None, 2) + [Fired(1)] == [Fired(1)];
    RunThree(At(bs, 0, "", "", None), e1, Up("s"), e3, At(bs, 1, "", "", None), At(bs, 1, "s", "", None), At(bs, 0, "s", "", None),
             [], [], [Fired(1)]);
    assert [] + ([] + [Fired(1)]) == [Fired(1)];
  }

  /** Without that key-up, the second chord does not continue the first
      (kikey.test.js:144-151), whatever earlier events left in `prevKey` and
      `prevMod`, as long as neither is `s`. */
  lemma TwoChordsUnreleased(prevKey: string, prevMod: string)
    requires prevKey != "s" && prevMod != "s"
    ensures Run(At([SAs, Plain("a")], 0, prevKey, prevMod, None),
                [Down(false, true, true, false, "s"), Down(false, false, false, false, "a")]).1 == []
  {
    var bs := [SAs, Plain("a")];
    var e1, e3 := Down(false, true, true, false, "s"), Down(false, false, false, false, "a");
    PlainChar("s");
    PlainChar("a");
    var start, pressed := At(bs, 0, prevKey, prevMod, None), At(bs, 1, prevKey, prevMod, None);
    assert Handle(start, e1) == (pressed, []) by {
      PressAdvances(bs, 0, prevKey, prevMod, None, e1);
    }
    assert Handle(pressed, e3).1 == [] by {
      PressMismatch(bs, 1, prevKey, prevMod, None, e3);
    }
    RunPair(start, e1, e3);
  }

  const ThreeLetters: string := "a b c"

  lemma ThreeChordsTokens()
    ensures Tokenize(ThreeLetters) == ["a", "b", "c"]
  {
    assert ThreeLetters == "a" + " " + "b" + " " + "c";
    ThreeTokens("a", "b", "c");
  }

  lemma ThreeChordsParsed()
    ensures ParseSequence(ThreeLetters) == Ok([Plain("a"), Plain("b"), Plain("c")])
  {
    ThreeChordsTokens();
    LoneCharacter('a');
    LoneCharacter('b');
    LoneCharacter('c');
    ParsedThree(ThreeLetters, "a", "b", "c", Plain("a"), Plain("b"), Plain("c"));
  }

  lemma ThreeChordsRegistered()
    ensures Register(Fresh, ThreeLetters, 1, None) == Ok(Single(1, [Plain("a"), Plain("b"), Plain("c")], None))
  {
    ThreeChordsParsed();
    RegisterFresh(ThreeLetters, [Plain("a"), Plain("b"), Plain("c")], 1, None);
  }

  /** "a b c" fires when each chord is released before the next
      (kikey.test.js:169-178). */
  lemma ThreeChordsReleased()
    ensures var bs := [Plain("a"), Plain("b"), Plain("c")];
      Run(Single(1, bs, None), [Down(false, false, false, false, "a"), Up("a"),
                               Down(false, false, false, false, "b"), Up("b"),
                               Down(false, false, false, false, "c")]).1 == [Fired(1)]
  {
    var bs := [Plain("a"), Plain("b"), Plain("c")];
    var a, b, c := Down(false, false, false, false, "a"), Down(false, false, false, false, "b"), Down(false, false, false, false, "c");
    PlainChar("a");
    PlainChar("b");
    PlainChar("c");
    PressAdvances(bs, 0, "", "", None, a);
    ReleaseKey(bs, 1, "", "", None, "a");
    PressAdvances(bs, 1, "a", "", None, b);
    ReleaseKey(bs, 2, "a", "", None, "b");
    PressCompletes(bs, 2, "b", "", None, c);
    assert Progress(None, 3) + [Fired(1)] == [Fired(1)];
    var events := [a, Up("a"), b, Up("b"), c];
    RunCons(At(bs, 0, "", "", None), events);
    assert events[1..] == [Up("a"), b, Up("b"), c];
    RunCons(At(bs, 1, "", "", None), events[1..]);
    assert events[1..][1..] == [b, Up("b"), c];
    RunThree(At(bs, 1, "a", "", None), b, Up("b"), c, At(bs, 2, "a", "", None), At(bs, 2, "b", "", None), At(bs, 0, "b", "", None),
             [], [], [Fired(1)]);
    assert [] + ([] + [Fired(1)]) == [Fired(1)];
  }

  /** Pressing the three keys without releasing them does not fire
      (kikey.test.js:180-185). */
  /** Pressing a, b, c without key-ups calls nothing, whatever keys earlier events
      left in `prevKey` and `prevMod`, as long as neither is `a`; the shared
      instance of kikey.test.js:77 holds `c` and `shift` there. */
  lemma ThreeChordsUnreleased(prevKey: string, prevMod: string)
    requires prevKey != "a" && prevMod != "a"
    ensures var bs := [Plain("a"), Plain("b"), Plain("c")];
      Run(At(bs, 0, prevKey, prevMod, None), [Down(false, false, false, false, "a"), Down(false, false, false, false, "b"),
                                              Down(false, false, false, false, "c")]).1 == []
  {
    var bs := [Plain("a"), Plain("b"), Plain("c")];
    var a, b, c := Down(false, false, false, false, "a"), Down(false, false, false, false, "b"), Down(false, false, false, false, "c");
    PlainChar("a");
    PlainChar("b");
    PlainChar("c");
    PressAdvances(bs, 0, prevKey, prevMod, None, a);
    PressMismatch(bs, 1, prevKey, prevMod, None, b);
    PressMismatch(bs, 0, prevKey, prevMod, None, c);
    RunThree(At(bs, 0, prevKey, prevMod, None), a, b, c, At(bs, 1, prevKey, prevMod, None),
             At(bs, 0, prevKey, prevMod, None), At(bs, 0, prevKey, prevMod, None), [], [], []);
  }

  const CtrlThenA: string := "C a"
  const CtrlAlone := Binding(true, false, false, false, "control")

  lemma CtrlThenATokens()
    ensures Tokenize(CtrlThenA) == ["C", "a"]
  {
    assert CtrlThenA == "C" + " " + "a";
    TwoTokens("C", "a");
  }

  lemma CtrlThenAParsed()
    ensures ParseSequence(CtrlThenA) == Ok([CtrlAlone, Plain("a")])
  {
    CtrlThenATokens();
    LoneModifierLetter('C');
    LoneCharacter('a');
    ParsedTwo(CtrlThenA, "C", "a", CtrlAlone, Plain("a"));
  }

  lemma CtrlThenARegistered()
    ensures Register(Fresh, CtrlThenA, 1, None) == Ok(Single(1, [CtrlAlone, Plain("a")], None))
  {
    CtrlThenAParsed();
    RegisterFresh(CtrlThenA, [CtrlAlone, Plain("a")], 1, None);
  }

  /** "C a" continues after the Control key when the key-down reports it as
      "control", the spelling the tests use (kikey.test.js:153-159): `prevMod`
      then holds the key of the first chord. */
  lemma CtrlThenALowerCase()
    ensures Run(Single(1, [CtrlAlone, Plain("a")], None),
                [Down(true, false, false, false, "control"), Up("control"), Down(false, false, false, false, "a")]).1 == [Fired(1)]
  {
    var bs := [CtrlAlone, Plain("a")];
    var e1, e3 := Down(true, false, false, false, "control"), Down(false, false, false, false, "a");
    assert Lower("control") == "control" && IsModifierKey("control");
    PlainChar("a");
    PressAdvances(bs, 0, "", "", None, e1);
    ReleaseKey(bs, 1, "", "control", None, "control");
    PressCompletes(bs, 1, "", "control", None, e3);
    assert Progress(None, 2) + [Fired(1)] == [Fired(1)];
    RunThree(At(bs, 0, "", "", None), e1, Up("control"), e3,
             At(bs, 1, "", "control", None), At(bs, 1, "", "control", None), At(bs, 0, "", "control", None), [], [], [Fired(1)]);
    assert [] + ([] + [Fired(1)]) == [Fired(1)];
  }

  /** A host that spells the key "Control" (as browsers do) does not get the same
      result: the first chord matches, since the event's key is lower-cased, but
      `prevMod` keeps the spelling "Control", which is not the binding's key
      "control", so the second chord does not continue the sequence. */
  lemma CtrlThenABrowserCase()
    ensures Run(Single(1, [CtrlAlone, Plain("a")], None),
                [Down(true, false, false, false, "Control"), Up("Control"), Down(false, false, false, false, "a")]).1 == []
  {
    var bs := [CtrlAlone, Plain("a")];
    var e1, e3 := Down(true, false, false, false, "Control"), Down(false, false, false, false, "a");
    assert Lower("Control") == "control" && IsModifierKey("Control");
    PlainChar("a");
    PressAdvances(bs, 0, "", "", None, e1);
    ReleaseKey(bs, 1, "", "Control", None, "Control");
    PressMismatch(bs, 1, "", "Control", None, e3);
    RunThree(At(bs, 0, "", "", None), e1, Up("Control"), e3,
             At(bs, 1, "", "Control", None), At(bs, 1, "", "Control", None), At(bs, 0, "", "Control", None), [], [], []);
  }

  const ShiftTwice: string := "S S"
  const ShiftAlone := Binding(false, true, false, false, "shift")

  lemma ShiftTwiceTokens()
    ensures Tokenize(ShiftTwice) == ["S", "S"]
  {
    assert ShiftTwice == "S" + " " + "S";
    TwoTokens("S", "S");
  }

  lemma ShiftTwiceParsed()
    ensures ParseSequence(ShiftTwice) == Ok([ShiftAlone, ShiftAlone])
  {
    ShiftTwiceTokens();
    LoneModifierLetter('S');
    ParsedTwo(ShiftTwice, "S", "S", ShiftAlone, ShiftAlone);
  }

  lemma ShiftTwiceRegistered()
    ensures Register(Fresh, ShiftTwice, 1, None) == Ok(Single(1, [ShiftAlone, ShiftAlone], None))
  {
    ShiftTwiceParsed();
    RegisterFresh(ShiftTwice, [ShiftAlone, ShiftAlone], 1, None);
  }

  /** "S S": Shift pressed, released and pressed again (kikey.test.js:161-167). */
  lemma ShiftTwiceFires()
    ensures Run(Single(1, [ShiftAlone, ShiftAlone], None),
                [Down(false, true, false, false, "shift"), Up("shift"), Down(false, true, false, false, "shift")]).1 == [Fired(1)]
  {
    var bs := [ShiftAlone, ShiftAlone];
    var e := Down(false, true, false, false, "shift");
    assert Lower("shift") == "shift" && IsModifierKey("shift");
    PressAdvances(bs, 0, "", "", None, e);
    ReleaseKey(bs, 1, "", "shift", None, "shift");
    PressCompletes(bs, 1, "", "shift", None, e);
    assert Progress(None, 2) + [Fired(1)] == [Fired(1)];
    RunThree(At(bs, 0, "", "", None), e, Up("shift"), e,
             At(bs, 1, "", "shift", None), At(bs, 1, "", "shift", None), At(bs, 0, "", "shift", None), [], [], [Fired(1)]);
    assert [] + ([] + [Fired(1)]) == [Fired(1)];
  }

  /** "`" registers the backtick and fires on its key-down (kikey.test.js:89-94). */
  lemma BacktickFires()
    ensures Register(Fresh, "`", 1, None) == Ok(Single(1, [Plain("`")], None))
    ensures Handle(Single(1, [Plain("`")], None), Down(false, false, false, false, "`")).1 == [Fired(1)]
  {
    LoneCharacter('`');
    assert "`" == ['`'];
    assert Lower("`") == "`";
    PlainKeyFires("`");
  }

  /** "space" registers the space bar and fires on a key-down reporting " "
      (kikey.test.js:95-98). */
  lemma SpaceFires()
    ensures Register(Fresh, "space", 1, None) == Ok(Single(1, [Plain(" ")], None))
    ensures Handle(Single(1, [Plain(" ")], None), Down(false, false, false, false, " ")).1 == [Fired(1)]
  {
    assert Register(Fresh, "space", 1, None) == Ok(Single(1, [Plain(" ")], None)) by {
      SpaceName();
      RegisterOne("space", Plain(" "), 1, None);
    }
    var e := Down(false, false, false, false, " ");
    assert Lower(" ") == " ";
    assert EventBinding(e) == Plain(" ");
    SingleFires(Plain(" "), e);
  }

  /** Every special name other than `space` and `dash` is registered as itself and
      fires on a key-down reporting that name (kikey.test.js:100-136). */
  lemma SpecialKeyFires(name: string)
    requires name in SpecialKeys && name != "space" && name != "dash"
    ensures Register(Fresh, name, 1, None) == Ok(Single(1, [Plain(name)], None))
    ensures Handle(Single(1, [Plain(name)], None), Down(false, false, false, false, name)).1 == [Fired(1)]
  {
    SpecialKeyFacts(name);
    PlainKeyFires(name);
  }

  lemma SpecialKeyFacts(name: string)
    requires name in SpecialKeys && name != "space" && name != "dash"
    ensures name != "" && ' ' !in name && Lower(name) == name && !IsModifierKey(name)
    ensures MakeBinding(name) == Ok(Plain(name))
  {
    SpecialKeyIsWord(name);
    SpecialKeyParses(name);
    SpecialKeyIsLower(name);
    SpecialKeyNotModifier(name);
  }

  lemma SpecialKeyNotModifier(name: string)
    requires name in SpecialKeys
    ensures name !in ModifierNames
  {
  }

  lemma SpecialKeyParses(name: string)
    requires name in SpecialKeys && name != "space" && name != "dash" && '-' !in name
    ensures MakeBinding(name) == Ok(Plain(name))
  {
    SplitNoSep(name, '-');
  }

  lemma SpecialKeyIsLower(name: string)
    requires name in SpecialKeys
    ensures Lower(name) == name
  {
    assert NoUpper(name);
    LowerOfLower(name);
  }

  /** A token that parses to its own text without modifiers fires on the key-down
      of that key. */
  lemma PlainKeyFires(name: string)
    requires name != "" && ' ' !in name && Lower(name) == name && !IsModifierKey(name)
    requires MakeBinding(name) == Ok(Plain(name))
    ensures Register(Fresh, name, 1, None) == Ok(Single(1, [Plain(name)], None))
    ensures Handle(Single(1, [Plain(name)], None), Down(false, false, false, false, name)).1 == [Fired(1)]
  {
    OneToken(name);
    ParsedOne(name, name, Plain(name));
    RegisterFresh(name, [Plain(name)], 1, None);
    var s, e := Single(1, [Plain(name)], None), Down(false, false, false, false, name);
    DownOne(s, e);
    assert Progress(None, 1) + [Fired(1)] == [Fired(1)];
  }

  // ---------------------------------------------------------------------------
  // The progress listener


  /** A listener hears every advance, the completion's cursor before the callback
      fires, ... */
  lemma ProgressReported()
    ensures Run(At([Plain("a"), Plain("b")], 0, "", "", Some(7)),
                [Down(false, false, false, false, "a"), Up("a"), Down(false, false, false, false, "b")]).1
            == [ComboChanged(7, 1), ComboChanged(7, 2), Fired(1)]
  {
    ProgressAlongTwo("a", "b", 7);
  }

  /** ... and on a mismatch it hears the cursor as it was before the reset, not 0. */
  lemma MismatchReportsOldCursor()
    ensures Run(At([Plain("a"), Plain("b")], 0, "", "", Some(7)),
                [Down(false, false, false, false, "a"), Down(false, false, false, false, "x")]).1
            == [ComboChanged(7, 1), ComboChanged(7, 1)]
  {
    MismatchAlongTwo("a", "b", "x", 7);
  }

  /** The calls a listener of a two-chord registration hears while the sequence is
      pressed through to the end. */
  lemma ProgressAlongTwo(x: string, y: string, l: ProgressId)
    requires |x| == 1 && !('A' <= x[0] <= 'Z') && |y| == 1 && !('A' <= y[0] <= 'Z')
    ensures Run(At([Plain(x), Plain(y)], 0, "", "", Some(l)),
                [Down(false, false, false, false, x), Up(x), Down(false, false, false, false, y)]).1
            == [ComboChanged(l, 1), ComboChanged(l, 2), Fired(1)]
  {
    var bs := [Plain(x), Plain(y)];
    var a, b := Down(false, false, false, false, x), Down(false, false, false, false, y);
    PlainChar(x);
    PlainChar(y);
    PressAdvances(bs, 0, "", "", Some(l), a);
    ReleaseKey(bs, 1, "", "", Some(l), x);
    PressCompletes(bs, 1, x, "", Some(l), b);
    assert Progress(Some(l), 2) + [Fired(1)] == [ComboChanged(l, 2), Fired(1)];
    RunThree(At(bs, 0, "", "", Some(l)), a, Up(x), b, At(bs, 1, "", "", Some(l)), At(bs, 1, x, "", Some(l)), At(bs, 0, x, "", Some(l)),
             [ComboChanged(l, 1)], [], [ComboChanged(l, 2), Fired(1)]);
    assert [ComboChanged(l, 1)] + ([] + [ComboChanged(l, 2), Fired(1)]) == [ComboChanged(l, 1), ComboChanged(l, 2), Fired(1)];
  }

  /** The calls a listener of a two-chord registration hears when the second key
      pressed is not the second chord. */
  lemma MismatchAlongTwo(x: string, y: string, z: string, l: ProgressId)
    requires |x| == 1 && !('A' <= x[0] <= 'Z') && |z| == 1 && !('A' <= z[0] <= 'Z') && z != y
    ensures Run(At([Plain(x), Plain(y)], 0, "", "", Some(l)),
                [Down(false, false, false, false, x), Down(false, false, false, false, z)]).1
            == [ComboChanged(l, 1), ComboChanged(l, 1)]
  {
    var bs := [Plain(x), Plain(y)];
    var a, c := Down(false, false, false, false, x), Down(false, false, false, false, z);
    PlainChar(x);
    PlainChar(z);
    PressAdvances(bs, 0, "", "", Some(l), a);
    PressMismatch(bs, 1, "", "", Some(l), c);
    RunPair(At(bs, 0, "", "", Some(l)), a, c);
  }

  // ---------------------------------------------------------------------------
  // From the recorder to the matcher

  /** Registering what `stopRecord` returned, under a new callback, and pressing and
      releasing the recorded chords fires that callback. */
  lemma RecordThenReplay(s: State, rec: seq<KeyEvent>, c: CallbackId)
    requires Valid(s) && s.isEnabled && c !in Callbacks(s.registry)
    requires AllRoundTrip(rec) && |ChordStarts(rec)| > 0
    ensures Register(s, Reconstruct(rec), c, None).Ok?
    ensures Valid(Register(s, Reconstruct(rec), c, None).value)
    ensures Fired(c) in Run(Register(s, Reconstruct(rec), c, None).value, Replay(ChordBindings(rec))).1
  {
    ReconstructionParses(rec);
    var bs := ChordBindings(rec);
    var r := Registration(c, bs, 0, None);
    SetEntryNew(s.registry, r);
    RegisterIsMapSet(s, Reconstruct(rec), c, None, c);
    var t := Register(s, Reconstruct(rec), c, None).value;
    var j := |s.registry|;
    assert t.registry == s.registry + [r];
    assert t.registry[j] == r;
    forall k | 0 <= k < |bs| ensures Lower(bs[k].key) == bs[k].key {
      LowerIsLower(rec[ChordStarts(rec)[k]].key);
    }
    ReplayFires(t, j);
  }

  // ---------------------------------------------------------------------------
  // The same, through the instance's methods

  /** `on("C-s")`, Ctrl+s, `off`, Ctrl+s again: the callback is called once
      (kikey.test.js:80-88). */
  method OnThenOff() returns (outcome: Result<()>, calls: seq<Output>)
    ensures outcome == Ok(()) && calls == [Fired(1)]
  {
    var k := new Kikey();
    var e := Down(true, false, false, false, "s");
    SimpleBindingRegisters();
    SimpleBinding();
    ghost var s := Single(1, [Binding(true, false, false, false, "s")], None);
    assert ParseSequence("C-s").Ok?;
    outcome := k.On("C-s", 1, None);
    assert outcome.Ok?;
    var u: () := outcome.value;
    assert u == ();
    assert k.Current() == s;
    k.Dispatch(e);
    assert k.Current() == s && k.trace == [Fired(1)];
    k.Off(1);
    k.Dispatch(e);
    assert k.trace == [Fired(1)] + [];
    assert k.trace == [Fired(1)];
    calls := k.trace;
  }

  /** Ctrl+s pressed and released while recording reconstructs to "C-s". */
  method RecordCtrlS() returns (notation: string)
    ensures notation == "C-s"
  {
    var k := new Kikey();
    var e := Down(true, false, false, false, "s");
    k.StartRecord();
    k.Dispatch(e);
    k.Dispatch(Up("s"));
    notation := k.StopRecord();
    RecordedCtrlS();
  }

  lemma RecordedCtrlS()
    ensures Reconstruct([Down(true, false, false, false, "s"), Up("s")]) == "C-s"
  {
    var e := Down(true, false, false, false, "s");
    var rec := [e, Up("s")];
    assert Lower("s") == "s" && !IsModifierKey("s");
    assert Letters(e) == ["C"];
    assert ChordToken(e) == "C-s";
    assert rec[1..] == [Up("s")];
    assert [Up("s")][1..] == [];
    assert Chords([Up("s")]) == [];
    assert IsChordStart(rec, 0);
    assert Chords(rec) == ["C-s"];
  }
}
