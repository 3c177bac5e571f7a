/** The reconstructor run by `stopRecord` (src/kikey.ts:185-219): from the buffered
    key events, the chord-sequence notation that `on` accepts. */
module Recorder {
  import opened Strings
  import opened Keys
  import opened Parser

  /** The letters of the active modifiers, always in the order C, S, A, M. */
  function Letters(e: KeyEvent): seq<string>
  {
    (if e.ctrlKey then ["C"] else []) + (if e.shiftKey then ["S"] else [])
      + (if e.altKey then ["A"] else []) + (if e.metaKey then ["M"] else [])
  }

  /** The key part of a token: lower-cased, `space` and `dash` for their characters,
      and nothing for a modifier key, which only its letter stands for. */
  function KeyName(e: KeyEvent): string
  {
    var key := Lower(e.key);
    if key == " " then "space" else if key == "-" then "dash" else if IsModifierKey(key) then "" else key
  }

  /** The token of one key-down (src/kikey.ts:191-212): the letters joined by `-`,
      then the key, with a `-` between them only when both are present. */
  function ChordToken(e: KeyEvent): string
  {
    var b := Join(Letters(e), '-');
    var key := KeyName(e);
    if |b| > 0 && |key| > 0 then b + "-" + key else if |b| == 0 then key else b
  }

  /** A chord starts at `i`: a key-down immediately followed by a key-up. */
  predicate IsChordStart(rec: seq<KeyEvent>, i: int)
  {
    0 <= i && i + 1 < |rec| && rec[i].kind == KeyDown && rec[i + 1].kind == KeyUp
  }

  /** The tokens the two-index scan pushes, first event first. */
  function Chords(rec: seq<KeyEvent>): seq<string>
    decreases |rec|
  {
    if |rec| == 0 then []
    else (if IsChordStart(rec, 0) then [ChordToken(rec[0])] else []) + Chords(rec[1..])
  }

  /** The string `stopRecord` returns. */
  function Reconstruct(rec: seq<KeyEvent>): string
  {
    Join(Chords(rec), ' ')
  }

  /** The chord starts of `rec` from index `i` on, in increasing order. */
  function StartsFrom(rec: seq<KeyEvent>, i: nat): (starts: seq<nat>)
    ensures forall k :: 0 <= k < |starts| ==> i <= starts[k] < |rec| && IsChordStart(rec, starts[k])
    ensures forall k, m :: 0 <= k < m < |starts| ==> starts[k] < starts[m]
    ensures forall j :: i <= j < |rec| && IsChordStart(rec, j) ==> j in starts
    decreases |rec| - i
  {
    if i >= |rec| then []
    else
      var rest := StartsFrom(rec, i + 1);
      if IsChordStart(rec, i) then
        StartsCons(rec, i, rest);
        [i] + rest
      else rest
  }

  /** A chord start put in front of the later ones keeps them increasing and
      complete. */
  lemma StartsCons(rec: seq<KeyEvent>, i: nat, rest: seq<nat>)
    requires IsChordStart(rec, i)
    requires forall k :: 0 <= k < |rest| ==> i + 1 <= rest[k] < |rec| && IsChordStart(rec, rest[k])
    requires forall k, m :: 0 <= k < m < |rest| ==> rest[k] < rest[m]
    requires forall j :: i + 1 <= j < |rec| && IsChordStart(rec, j) ==> j in rest
    ensures var starts := [i] + rest;
      && (forall k :: 0 <= k < |starts| ==> i <= starts[k] < |rec| && IsChordStart(rec, starts[k]))
      && (forall k, m :: 0 <= k < m < |starts| ==> starts[k] < starts[m])
      && (forall j :: i <= j < |rec| && IsChordStart(rec, j) ==> j in starts)
  {
    var starts := [i] + rest;
    assert starts[0] == i;
    assert forall k :: 1 <= k < |starts| ==> starts[k] == rest[k - 1];
  }

  /** Every index where a key-down is directly followed by a key-up, and no other,
      in chronological order. */
  function ChordStarts(rec: seq<KeyEvent>): seq<nat>
  {
    StartsFrom(rec, 0)
  }

  /** The tokens of the key-downs at the given indices, in the same order. */
  function TokensAt(rec: seq<KeyEvent>, starts: seq<nat>): (tokens: seq<string>)
    requires forall k :: 0 <= k < |starts| ==> starts[k] < |rec|
    ensures |tokens| == |starts|
    ensures forall k :: 0 <= k < |starts| ==> tokens[k] == ChordToken(rec[starts[k]])
    decreases |starts|
  {
    if |starts| == 0 then [] else [ChordToken(rec[starts[0]])] + TokensAt(rec, starts[1..])
  }

  lemma {:induction false} ChordsFrom(rec: seq<KeyEvent>, i: nat)
    requires i <= |rec|
    ensures Chords(rec[i..]) == TokensAt(rec, StartsFrom(rec, i))
    decreases |rec| - i
  {
    if i < |rec| {
      ChordsFrom(rec, i + 1);
      var t, rest := rec[i..], StartsFrom(rec, i + 1);
      assert t[1..] == rec[i + 1..];
      assert IsChordStart(t, 0) == IsChordStart(rec, i);
      if IsChordStart(rec, i) {
        assert ([i] + rest)[1..] == rest;
      }
    }
  }

  /** `stopRecord` emits one token per chord start, for the key-down at that start,
      in the order the chords were typed. */
  lemma ChordsAtStarts(rec: seq<KeyEvent>)
    ensures |Chords(rec)| == |ChordStarts(rec)|
    ensures forall k :: 0 <= k < |ChordStarts(rec)| ==> Chords(rec)[k] == ChordToken(rec[ChordStarts(rec)[k]])
  {
    ChordsFrom(rec, 0);
    assert rec[0..] == rec;
  }

  /** One more event adds a token exactly when it is a key-up that follows a key-down. */
  lemma {:induction false} ChordsSnoc(rec: seq<KeyEvent>, x: KeyEvent)
    ensures Chords(rec + [x]) == Chords(rec) +
      (if |rec| > 0 && rec[|rec| - 1].kind == KeyDown && x.kind == KeyUp then [ChordToken(rec[|rec| - 1])] else [])
    decreases |rec|
  {
    if |rec| > 0 {
      var r := rec + [x];
      assert r[1..] == rec[1..] + [x];
      ChordsSnoc(rec[1..], x);
      var head := if IsChordStart(r, 0) then [ChordToken(rec[0])] else [];
      assert Chords(r) == head + Chords(rec[1..] + [x]);
      if |rec| == 1 {
        assert IsChordStart(r, 0) <==> rec[0].kind == KeyDown && x.kind == KeyUp;
        assert Chords(rec) == [] + Chords(rec[1..]);
        assert Chords(rec[1..]) == [];
      } else {
        assert IsChordStart(r, 0) == IsChordStart(rec, 0);
        assert Chords(rec) == head + Chords(rec[1..]);
      }
    }
  }

  /** A key-down left without its key-up when recording stops yields no token. */
  lemma TrailingKeyDownDropped(rec: seq<KeyEvent>, x: KeyEvent)
    requires x.kind == KeyDown
    ensures Chords(rec + [x]) == Chords(rec)
  {
    ChordsSnoc(rec, x);
  }

  // ---------------------------------------------------------------------------
  // The notation the recorder writes is the notation the parser reads.

  /** The key-downs the round trip covers: (a) a lower-cased key that is one
      UTF-16 code unit or a special name other than the literal words `space` and `dash`,
      with any modifiers; (b) a modifier key with only its own flag set. */
  predicate RoundTrips(e: KeyEvent)
  {
    var key := Lower(e.key);
    || OneUnit(key)
    || (key in SpecialKeys && key != "space" && key != "dash")
    || (key == "control" && e.ctrlKey && !e.shiftKey && !e.altKey && !e.metaKey)
    || (key == "shift" && !e.ctrlKey && e.shiftKey && !e.altKey && !e.metaKey)
    || (key == "alt" && !e.ctrlKey && !e.shiftKey && e.altKey && !e.metaKey)
    || (key == "meta" && !e.ctrlKey && !e.shiftKey && !e.altKey && e.metaKey)
  }
  /** A key of one character above U+FFFF is not covered: the recorder writes it
      as itself, and the parser refuses it since its `length` is 2. */
  lemma AstralKeyNotCovered(e: KeyEvent, c: char)
    requires c > '\U{FFFF}' && e.key == [c]
    ensures !RoundTrips(e)
    ensures var b := Join(Letters(e), '-');
      ChordToken(e) == if |b| > 0 then b + "-" + [c] else [c]
    ensures MakeBinding(ChordToken(e)) == Err(InvalidBinding)
  {
    var key := Lower(e.key);
    assert key == [c];
    assert Lower(key) == key;
    assert key !in SpecialKeys && key !in ModifierNames;
    assert KeyName(e) == [c];
    AstralCharacterRejected(Join(Letters(e), '-'), c);
  }


  lemma {:induction false} JoinSnoc(parts: seq<string>, last: string, sep: char)
    requires |parts| > 0
    ensures Join(parts + [last], sep) == Join(parts, sep) + [sep] + last
    decreases |parts|
  {
    if |parts| > 1 {
      assert (parts + [last])[1..] == parts[1..] + [last];
      JoinSnoc(parts[1..], last, sep);
    }
  }

  /** The letters are single upper-case letters, one per flag set. */
  lemma LettersFacts(e: KeyEvent)
    ensures forall i :: 0 <= i < |Letters(e)| ==> Letters(e)[i] in ["C", "S", "A", "M"]
    ensures ("C" in Letters(e)) == e.ctrlKey && ("S" in Letters(e)) == e.shiftKey
    ensures ("A" in Letters(e)) == e.altKey && ("M" in Letters(e)) == e.metaKey
  {
  }

  /** The key part of a covered non-modifier key-down is one valid segment, without
      separator or space, that is no modifier letter and resolves to the
      lower-cased key. */
  lemma KeyNameFacts(e: KeyEvent)
    requires RoundTrips(e) && !IsModifierKey(Lower(e.key))
    ensures var name := KeyName(e);
      && name != "" && '-' !in name && ' ' !in name && ValidSegment(name)
      && name != "C" && name != "S" && name != "A" && name != "M"
      && SegmentKey(name) == Lower(e.key)
  {
    var key := Lower(e.key);
    LowerIsLower(e.key);
    assert !IsModifierKey(key);
    var name := KeyName(e);
    if key == " " {
      assert name == "space";
    } else if key == "-" {
      assert name == "dash";
    } else if OneUnit(key) {
      assert name == key;
      assert !('A' <= key[0] <= 'Z');
    } else {
      assert name == key;
      SpecialKeyIsWord(key);
    }
  }

  /** A modifier letter is one valid segment of one character. */
  lemma LetterShape(x: string)
    requires x in ["C", "S", "A", "M"]
    ensures |x| == 1 && '-' !in x && ValidSegment(x)
  {
  }

  /** Joining the letters and appending a key segment gives back those segments. */
  lemma LettersThenKey(letters: seq<string>, key: string)
    requires forall i :: 0 <= i < |letters| ==> letters[i] in ["C", "S", "A", "M"]
    requires key != "" && '-' !in key
    ensures var b := Join(letters, '-'); Split(if |b| > 0 then b + "-" + key else key, '-') == letters + [key]
    ensures ValidSegment(key) ==> AllValid(letters + [key])
  {
    var parts := letters + [key];
    forall i | 0 <= i < |parts| ensures '-' !in parts[i] && (i < |letters| ==> |parts[i]| == 1 && ValidSegment(parts[i])) {
      if i < |letters| {
        assert parts[i] == letters[i];
        LetterShape(letters[i]);
      }
    }
    if |letters| == 0 {
      SplitNoSep(key, '-');
    } else {
      assert Join(letters, '-') != "" by {
        if |letters| > 1 { assert Join(letters, '-') == letters[0] + ['-'] + Join(letters[1..], '-'); }
      }
      JoinSnoc(letters, key, '-');
      assert Join(letters, '-') + "-" + key == Join(letters, '-') + ['-'] + key;
      SplitJoin(parts, '-');
    }
  }

  /** The segments of a token the recorder writes for a covered key that is not a
      modifier: its letters, then its key part, all of them valid. */
  lemma KeyTokenSegments(e: KeyEvent)
    requires RoundTrips(e) && !IsModifierKey(Lower(e.key))
    ensures Split(ChordToken(e), '-') == Letters(e) + [KeyName(e)]
    ensures AllValid(Letters(e) + [KeyName(e)])
  {
    KeyNameFacts(e);
    LettersFacts(e);
    LettersThenKey(Letters(e), KeyName(e));
  }

  /** Round trip for a lone modifier key-down. */
  lemma ModifierRoundTrip(e: KeyEvent)
    requires RoundTrips(e) && IsModifierKey(Lower(e.key))
    ensures MakeBinding(ChordToken(e)) == Ok(EventBinding(e))
  {
    ModifierToken(e);
    var key := Lower(e.key);
    if key == "control" {
      LoneModifierLetter('C');
    } else if key == "shift" {
      LoneModifierLetter('S');
    } else if key == "alt" {
      LoneModifierLetter('A');
    } else {
      LoneModifierLetter('M');
    }
  }

  /** A covered modifier key-down has only its own flag set and is written as that
      flag's letter. */
  lemma ModifierToken(e: KeyEvent)
    requires RoundTrips(e) && IsModifierKey(Lower(e.key))
    ensures var key := Lower(e.key);
      || (key == "control" && e.ctrlKey && !e.shiftKey && !e.altKey && !e.metaKey && ChordToken(e) == "C")
      || (key == "shift" && !e.ctrlKey && e.shiftKey && !e.altKey && !e.metaKey && ChordToken(e) == "S")
      || (key == "alt" && !e.ctrlKey && !e.shiftKey && e.altKey && !e.metaKey && ChordToken(e) == "A")
      || (key == "meta" && !e.ctrlKey && !e.shiftKey && !e.altKey && e.metaKey && ChordToken(e) == "M")
  {
    var key := Lower(e.key);
    LowerIsLower(e.key);
    ModifierNotSpecial(key);
    assert KeyName(e) == "";
  }

  /** The letters followed by a segment that is no modifier letter say exactly which
      flags are set. */
  lemma SegmentFlags(e: KeyEvent, name: string)
    requires name != "C" && name != "S" && name != "A" && name != "M"
    ensures var segs := Letters(e) + [name];
      && ("C" in segs) == e.ctrlKey && ("S" in segs) == e.shiftKey
      && ("A" in segs) == e.altKey && ("M" in segs) == e.metaKey
  {
    LettersFacts(e);
  }

  /** Round trip for a key-down of any other covered key. */
  lemma KeyRoundTrip(e: KeyEvent)
    requires RoundTrips(e) && !IsModifierKey(Lower(e.key))
    ensures MakeBinding(ChordToken(e)) == Ok(EventBinding(e))
  {
    var token, name := ChordToken(e), KeyName(e);
    var segs := Letters(e) + [name];
    KeyTokenSegments(e);
    KeyNameFacts(e);
    SegmentFlags(e, name);
    assert segs[|segs| - 1] == name;
    if OneUnit(token) {
      assert |segs| == 1 && Letters(e) == [];
    } else {
      AcceptedFields(token);
    }
  }

  /** Parsing the token the recorder writes for a covered key-down gives back its
      four flags and its lower-cased key. */
  lemma ChordRoundTrip(e: KeyEvent)
    requires RoundTrips(e)
    ensures MakeBinding(ChordToken(e)) == Ok(EventBinding(e))
  {
    if IsModifierKey(Lower(e.key)) {
      ModifierRoundTrip(e);
    } else {
      KeyRoundTrip(e);
    }
  }

  /** The token of a covered key-down is non-empty and has no space in it. */
  lemma ChordTokenIsWord(e: KeyEvent)
    requires RoundTrips(e)
    ensures ChordToken(e) != "" && ' ' !in ChordToken(e)
  {
    if IsModifierKey(Lower(e.key)) {
      ModifierTokenIsWord(e);
    } else {
      KeyTokenIsWord(e);
    }
  }

  /** The same for a lone modifier: its token is its letter. */
  lemma ModifierTokenIsWord(e: KeyEvent)
    requires RoundTrips(e) && IsModifierKey(Lower(e.key))
    ensures ChordToken(e) != "" && ' ' !in ChordToken(e)
  {
    ModifierToken(e);
  }

  /** The same for a key that is not a modifier: the letters and the key part
      have no space, and the key part is not empty. */
  lemma KeyTokenIsWord(e: KeyEvent)
    requires RoundTrips(e) && !IsModifierKey(Lower(e.key))
    ensures ChordToken(e) != "" && ' ' !in ChordToken(e)
  {
    KeyNameFacts(e);
    LettersFacts(e);
    var letters := Letters(e);
    if |letters| == 0 {
      assert ChordToken(e) == KeyName(e);
    } else {
      LettersHaveNoSpace(letters);
      assert ChordToken(e) == Join(letters, '-') + "-" + KeyName(e);
    }
  }

  lemma {:induction false} LettersHaveNoSpace(letters: seq<string>)
    requires forall i :: 0 <= i < |letters| ==> letters[i] in ["C", "S", "A", "M"]
    ensures ' ' !in Join(letters, '-')
    decreases |letters|
  {
    if |letters| > 1 {
      LettersHaveNoSpace(letters[1..]);
    }
  }

  /** The bindings of the key-downs that start the recorded chords, in order. */
  function ChordBindings(rec: seq<KeyEvent>): (bs: seq<Binding>)
    ensures |bs| == |ChordStarts(rec)|
  {
    var starts := ChordStarts(rec);
    seq(|starts|, k requires 0 <= k < |starts| => EventBinding(rec[starts[k]]))
  }

  /** Every recorded chord is covered by the round trip. */
  predicate AllRoundTrip(rec: seq<KeyEvent>)
  {
    forall i :: 0 <= i < |rec| && IsChordStart(rec, i) ==> RoundTrips(rec[i])
  }

  /** Splitting the reconstructed string on spaces gives back the tokens. */
  lemma TokenizeReconstruct(rec: seq<KeyEvent>)
    requires AllRoundTrip(rec)
    ensures Tokenize(Reconstruct(rec)) == Chords(rec)
    ensures |Chords(rec)| == |ChordBindings(rec)|
    ensures forall k :: 0 <= k < |Chords(rec)| ==> MakeBinding(Chords(rec)[k]) == Ok(ChordBindings(rec)[k])
  {
    var tokens, starts := Chords(rec), ChordStarts(rec);
    ChordsAtStarts(rec);
    forall k | 0 <= k < |tokens|
      ensures tokens[k] != "" && ' ' !in tokens[k] && MakeBinding(tokens[k]) == Ok(ChordBindings(rec)[k])
    {
      assert tokens[k] == ChordToken(rec[starts[k]]);
      ChordTokenIsWord(rec[starts[k]]);
      ChordRoundTrip(rec[starts[k]]);
    }
    if |tokens| > 0 {
      SplitJoin(tokens, ' ');
      NonEmptyKeeps(tokens);
    }
  }

  /** Feeding `stopRecord`'s result to `on` yields, chord by chord, the flags and
      lower-cased keys of the key-downs that started the recorded chords; with no
      chord recorded, `on` is refused. */
  lemma ReconstructionParses(rec: seq<KeyEvent>)
    requires AllRoundTrip(rec)
    ensures |ChordStarts(rec)| == 0 ==> ParseSequence(Reconstruct(rec)) == Err(EmptySequence)
    ensures |ChordStarts(rec)| > 0 ==> ParseSequence(Reconstruct(rec)) == Ok(ChordBindings(rec))
  {
    TokenizeReconstruct(rec);
    ChordsAtStarts(rec);
    var tokens := Chords(rec);
    if |tokens| > 0 {
      var r := ParseAll(tokens);
      assert r.Ok?;
      assert r.value == ChordBindings(rec);
    }
  }
}
