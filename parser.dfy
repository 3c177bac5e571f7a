/** The chord-token parser `makeBinding` (kikey.js:37-71) and the tokenising of a
    binding sequence done by `on` (src/kikey.ts:133-136). */
module Parser {
  import opened Strings
  import opened Keys

  /** `InvalidBinding` is the `Error("Invalid binding.")` thrown by `makeBinding`;
      `EmptySequence` is the sequence without any token, which the model refuses
      explicitly. */
  datatype ParseError = InvalidBinding | EmptySequence

  datatype Result<T> = Ok(value: T) | Err(error: ParseError)

  /** A segment the loop accepts: one UTF-16 code unit, or a special key name. */
  predicate ValidSegment(c: string)
  {
    OneUnit(c) || c in SpecialKeys
  }

  /** Every segment of a token is valid. */
  predicate AllValid(segs: seq<string>)
  {
    forall i :: 0 <= i < |segs| ==> ValidSegment(segs[i])
  }

  /** The key a segment stands for: `space` and `dash` are aliases, every other
      segment is copied unchanged. */
  function SegmentKey(c: string): string
  {
    if c == "space" then " " else if c == "dash" then "-" else c
  }

  /** The key of a one-character token: the name of the first modifier set, in the
      order ctrl, shift, alt, meta; otherwise the key found by the loop. */
  function LoneTokenKey(ctrl: bool, shift: bool, alt: bool, meta: bool, key: string): string
  {
    if ctrl then "control" else if shift then "shift" else if alt then "alt"
    else if meta then "meta" else key
  }

  /** What `makeBinding(token)` returns, stated over the segments of the token:
      it fails when some segment is neither one character nor a special name;
      otherwise each flag says whether its letter is a segment, and the key is the
      last segment with its alias resolved (promoted to a modifier name for a
      one-character token). */
  function MakeBinding(token: string): Result<Binding>
  {
    var segs := Split(token, '-');
    if !AllValid(segs) then Err(InvalidBinding)
    else
      var ctrl, shift, alt, meta := "C" in segs, "S" in segs, "A" in segs, "M" in segs;
      var key := SegmentKey(segs[|segs| - 1]);
      Ok(Binding(ctrl, shift, alt, meta,
                 if OneUnit(token) then LoneTokenKey(ctrl, shift, alt, meta, key) else key))
  }

  /** `makeBinding`: the loop over the segments, then the one-character promotion. */
  method ParseBinding(token: string) returns (r: Result<Binding>)
    ensures r == MakeBinding(token)
    ensures r.Ok? <==> AllValid(Split(token, '-'))
  {
    var segs := Split(token, '-');
    var ctrlKey, shiftKey, altKey, metaKey, key := false, false, false, false, "";
    var i := 0;
    while i < |segs|
      invariant 0 <= i <= |segs|
      invariant forall j :: 0 <= j < i ==> ValidSegment(segs[j])
      invariant ctrlKey == ("C" in segs[..i]) && shiftKey == ("S" in segs[..i])
      invariant altKey == ("A" in segs[..i]) && metaKey == ("M" in segs[..i])
      invariant i > 0 ==> key == SegmentKey(segs[i - 1])
    {
      var c := segs[i];
      PrefixMember(segs, i, "C");
      PrefixMember(segs, i, "S");
      PrefixMember(segs, i, "A");
      PrefixMember(segs, i, "M");
      if OneUnit(c) {
        ctrlKey := c == "C" || ctrlKey;
        shiftKey := c == "S" || shiftKey;
        altKey := c == "A" || altKey;
        metaKey := c == "M" || metaKey;
        key := c;
        assert |c| == 1 && key == SegmentKey(c);
      } else if c in SpecialKeys {
        key := if c == "space" then " " else if c == "dash" then "-" else c;
        SpecialKeyIsWord(c);
      } else {
        assert !ValidSegment(segs[i]);
        return Err(InvalidBinding);
      }
      i := i + 1;
    }
    assert segs[..i] == segs;
    if OneUnit(token) {
      if ctrlKey {
        key := "control";
      } else if shiftKey {
        key := "shift";
      } else if altKey {
        key := "alt";
      } else if metaKey {
        key := "meta";
      }
    }
    return Ok(Binding(ctrlKey, shiftKey, altKey, metaKey, key));
  }

  /** A segment occurs in a longer prefix when it occurs in the shorter one or is
      the one added. */
  lemma PrefixMember(segs: seq<string>, i: nat, x: string)
    requires i < |segs|
    ensures (x in segs[..i + 1]) <==> (x in segs[..i] || segs[i] == x)
  {
    assert segs[..i + 1] == segs[..i] + [segs[i]];
  }

  /** `sequence.split(" ").filter((v) => v !== "")`: the space-separated fields
      that are not empty. */
  function Tokenize(sequence: string): (tokens: seq<string>)
    ensures forall i :: 0 <= i < |tokens| ==> tokens[i] != "" && ' ' !in tokens[i]
    ensures multiset(tokens) == multiset(Split(sequence, ' '))["" := 0]
  {
    var fields := Split(sequence, ' ');
    var kept := NonEmpty(fields);
    assert forall i :: 0 <= i < |kept| ==> kept[i] in fields;
    kept
  }

  /** `tokens.map(makeBinding)`: the first token that fails makes the whole list fail. */
  function ParseAll(tokens: seq<string>): (r: Result<seq<Binding>>)
    ensures r.Ok? <==> forall i :: 0 <= i < |tokens| ==> MakeBinding(tokens[i]).Ok?
    ensures r.Err? ==> r.error == InvalidBinding
    ensures r.Ok? ==> |r.value| == |tokens|
    ensures r.Ok? ==> forall i :: 0 <= i < |tokens| ==> r.value[i] == MakeBinding(tokens[i]).value
    decreases |tokens|
  {
    if |tokens| == 0 then Ok([])
    else
      match MakeBinding(tokens[0])
      case Err(e) => Err(e)
      case Ok(b) =>
        match ParseAll(tokens[1..])
        case Err(e) => Err(e)
        case Ok(bs) => Ok([b] + bs)
  }

  /** Tokens that all parse give the list of their bindings. */
  lemma ParseAllOk(tokens: seq<string>, bindings: seq<Binding>)
    requires |bindings| == |tokens|
    requires forall j :: 0 <= j < |tokens| ==> MakeBinding(tokens[j]) == Ok(bindings[j])
    ensures ParseAll(tokens) == Ok(bindings)
  {
    assert ParseAll(tokens).value == bindings;
  }

  /** The bindings of the next token extend those of the tokens before it. */
  lemma ParsedPrefix(tokens: seq<string>, bindings: seq<Binding>, b: Binding)
    requires |bindings| < |tokens| && MakeBinding(tokens[|bindings|]) == Ok(b)
    requires forall j :: 0 <= j < |bindings| ==> MakeBinding(tokens[j]) == Ok(bindings[j])
    ensures forall j :: 0 <= j < |bindings| + 1 ==> MakeBinding(tokens[j]) == Ok((bindings + [b])[j])
  {
    var next := bindings + [b];
    assert forall j :: 0 <= j < |bindings| ==> next[j] == bindings[j];
  }

  /** One refused token makes the whole list fail with its error. */
  lemma ParseAllErr(tokens: seq<string>, i: nat)
    requires i < |tokens| && MakeBinding(tokens[i]).Err?
    ensures ParseAll(tokens) == Err(MakeBinding(tokens[i]).error)
  {
  }

  /** The bindings `on` stores for a sequence string, or the error it raises. A
      sequence without any token is refused with `EmptySequence`. */
  function ParseSequence(sequence: string): (r: Result<seq<Binding>>)
    ensures r == Err(EmptySequence) <==> |Tokenize(sequence)| == 0
    ensures r.Ok? <==> |Tokenize(sequence)| > 0 && forall i :: 0 <= i < |Tokenize(sequence)| ==> MakeBinding(Tokenize(sequence)[i]).Ok?
    ensures r.Ok? ==> |r.value| == |Tokenize(sequence)|
  {
    var tokens := Tokenize(sequence);
    if |tokens| == 0 then Err(EmptySequence) else ParseAll(tokens)
  }

  /** A token that is one of the letters C, S, A, M binds that modifier alone, under
      its key name. */
  lemma LoneModifierLetter(c: char)
    requires c == 'C' || c == 'S' || c == 'A' || c == 'M'
    ensures MakeBinding([c]) == Ok(Binding(c == 'C', c == 'S', c == 'A', c == 'M',
                                           if c == 'C' then "control" else if c == 'S' then "shift"
                                           else if c == 'A' then "alt" else "meta"))
  {
    SplitNoSep([c], '-');
  }

  /** Any other token of one UTF-16 code unit except the separator binds that
      character, without modifiers. */
  lemma LoneCharacter(c: char)
    requires c != 'C' && c != 'S' && c != 'A' && c != 'M' && c != '-' && c <= '\U{FFFF}'
    ensures MakeBinding([c]) == Ok(Binding(false, false, false, false, [c]))
  {
    SplitNoSep([c], '-');
  }

  /** A character above U+FFFF is two UTF-16 code units, so as a segment of its own
      it is neither one character nor a special name, and it is refused, alone or
      after other segments. */
  lemma AstralCharacterRejected(a: string, c: char)
    requires c > '\U{FFFF}'
    ensures MakeBinding([c]) == Err(InvalidBinding)
    ensures MakeBinding(a + "-" + [c]) == Err(InvalidBinding)
  {
    SplitNoSep([c], '-');
    assert a + "-" + [c] == a + ['-'] + [c];
    SplitConcat(a, [c], '-');
    var segs := Split(a + "-" + [c], '-');
    assert segs[|segs| - 1] == [c];
    assert [c] !in SpecialKeys;
  }

  /** Two adjacent separators leave an empty segment, which is refused. */
  lemma DoubleDashRejected(a: string, b: string)
    ensures MakeBinding(a + "--" + b) == Err(InvalidBinding)
  {
    var rest := "" + ['-'] + b;
    assert a + "--" + b == a + ['-'] + rest;
    SplitConcat(a, rest, '-');
    SplitConcat("", b, '-');
    assert Split(rest, '-')[0] == "";
    var segs := Split(a + "--" + b, '-');
    assert segs[|Split(a, '-')|] == Split(rest, '-')[0];
    assert !ValidSegment(segs[|Split(a, '-')|]);
  }

  /** A trailing separator leaves an empty last segment, which is refused. */
  lemma TrailingDashRejected(a: string)
    ensures MakeBinding(a + "-") == Err(InvalidBinding)
  {
    assert a + "-" == a + ['-'] + "";
    SplitConcat(a, "", '-');
    var segs := Split(a + "-", '-');
    assert segs[|segs| - 1] == "";
  }

  /** A leading separator leaves an empty first segment, which is refused. */
  lemma LeadingDashRejected(b: string)
    ensures MakeBinding("-" + b) == Err(InvalidBinding)
  {
    assert "-" + b == "" + ['-'] + b;
    SplitConcat("", b, '-');
    assert Split("-" + b, '-')[0] == "";
  }

  /** The empty token is refused. */
  lemma EmptyTokenRejected()
    ensures MakeBinding("") == Err(InvalidBinding)
  {
    assert Split("", '-')[0] == "";
  }

  /** A multi-character segment that is not a special name is refused. */
  lemma UnknownNameRejected(a: string, name: string)
    requires |name| > 1 && name !in SpecialKeys && '-' !in name
    ensures MakeBinding(a + "-" + name) == Err(InvalidBinding)
    ensures MakeBinding(name) == Err(InvalidBinding)
  {
    assert a + "-" + name == a + ['-'] + name;
    SplitConcat(a, name, '-');
    SplitNoSep(name, '-');
    var segs := Split(a + "-" + name, '-');
    assert segs[|segs| - 1] == name;
  }

  /** A token of several characters whose segments are all valid: each flag says
      whether its letter is a segment, and the key is the last segment. */
  lemma AcceptedFields(token: string)
    requires !OneUnit(token) && AllValid(Split(token, '-'))
    ensures var segs := Split(token, '-');
      MakeBinding(token) == Ok(Binding("C" in segs, "S" in segs, "A" in segs, "M" in segs, SegmentKey(segs[|segs| - 1])))
  {
  }

  /** Only which segments occur matters, and the last one: the order and the
      repetition of the others do not change the binding. */
  lemma SegmentOrderIrrelevant(t1: string, t2: string)
    requires |t1| > 1 && |t2| > 1
    requires forall x :: x in Split(t1, '-') <==> x in Split(t2, '-')
    requires var s1, s2 := Split(t1, '-'), Split(t2, '-'); s1[|s1| - 1] == s2[|s2| - 1]
    ensures MakeBinding(t1) == MakeBinding(t2)
  {
    var s1, s2 := Split(t1, '-'), Split(t2, '-');
    SameMembersSameValidity(s1, s2);
    if AllValid(s1) {
      AcceptedFields(t1);
      AcceptedFields(t2);
    }
  }

  /** Validity of the segments depends only on which segments occur. */
  lemma SameMembersSameValidity(s1: seq<string>, s2: seq<string>)
    requires forall x :: x in s1 <==> x in s2
    ensures AllValid(s1) <==> AllValid(s2)
  {
    if AllValid(s2) {
      forall i | 0 <= i < |s1| ensures ValidSegment(s1[i]) {
        assert s1[i] in s2;
      }
    }
    if AllValid(s1) {
      forall j | 0 <= j < |s2| ensures ValidSegment(s2[j]) {
        assert s2[j] in s1;
      }
    }
  }
}
