# kikey key-binding engine in Dafny

kikey is a small browser library for keyboard shortcuts. A client registers a
*sequence* such as `"C-s a"` (press Ctrl+s and release it, then press `a`)
together with a callback. The library listens to the keyboard, advances a
cursor per registration as the chords of its sequence are pressed, and calls
the callback when the last chord arrives. It can also record the keys typed and
write them back in the same notation.

The model covers the three parts of the engine:

- **the chord-token parser** `makeBinding` (module `Parser`);
- **the sequence matcher** `handleKeyEvent`, `on`, `off`, `enable` and
  `disable`. The module `Matcher` gives them as transition functions on the
  instance's state. The class `Instance.Kikey` gives them as in-place methods
  proved against those functions;
- **the recorder** `pushEvent` and `stopRecord`. The module `Recorder` holds
  the specification; the methods of `Instance.Kikey` are proved against it.

`Strings` models the few JavaScript string operations involved. `Keys` holds
the shared vocabulary. `Scenarios` states the behaviour the repository's unit
tests describe, as lemmas about the model.

Modelling choices:

- **Callbacks.** A callback is an opaque number, since the source compares them
  only by identity. A progress listener (`onComboChange`) is `Some(id)`, or
  `None` for the default no-op.
- **The trace.** Every call of a callback or a listener becomes an `Output` in
  a trace, in call order.
- **The registry.** The registry is a JavaScript `Map`. It is modelled as a
  sequence of registrations with distinct callbacks, in insertion order:
  - `set` keeps the position of an existing key and appends a new one;
  - `delete` removes the entry.
- **Events.** A host keyboard event becomes a `KeyEvent` carrying its type,
  four modifier flags and the key string. `Dispatch` delivers it to the
  matcher first, then to the recorder while recording, following the order
  the listeners were attached in.

`src/kikey.ts` imports its parser from `./makeBinding`, and that file is not
part of this model. The parser modelled is the one written out in `kikey.js`,
whose matcher and recorder repeat those of `src/kikey.ts`. The two copies
differ in ways that change no observable behaviour:

- **Initial `prevKey`/`prevMod`.** They start as `undefined` in `kikey.js` and
  as `""` in `src/kikey.ts`. No binding has an empty key, so neither initial
  value ever matches a binding; the model uses `""`.
- **Dropped modifier key.** The recorder drops a modifier key as `null` in
  `kikey.js` and as `""` in `src/kikey.ts`. `join` writes `null` as the empty
  string, so the output is the same.

Strings are sequences of Unicode characters, while JavaScript's `length`
counts UTF-16 code units, so a character above U+FFFF has length 2.
`Strings.JsLength` models that count, and `Strings.OneUnit` is its test for
length 1, which the parser uses wherever the code compares a length with 1.
`split` on `-` or a space gives the same parts whether the string is read as
code units or as characters, because neither separator is half of a surrogate
pair.

The `Scenarios` module restates `kikey.test.js`. Each lemma starts from a fresh
instance. The tests instead share one instance `k` (kikey.test.js:77), and
they never call `off` except in the first test, so registrations from earlier
tests stay in the registry. This changes no test's outcome:

- Each test only checks that its own new callback is called, or is not. The
  registry loop steps every entry independently of the others, and a new
  callback's registration starts at cursor 0.
- `prevKey` and `prevMod` are read only when a cursor above 0 is to advance.
  In every test that expects a call, the key-up or modifier key-down that the
  next chord checks happens earlier in the same test.
- The second "a b c" test (kikey.test.js:180-185) expects no call. There the
  shared instance holds `prevKey` `c` and `prevMod` `shift`, where a fresh one
  holds `""` twice. None of these is `a`, so `b` does not continue the sequence
  in either case.

Behaviours of the code that the model keeps as written:

- **Mismatch report.** On a mismatch the progress listener receives the cursor
  as it was before the reset, not 0.
- **Trailing key-down.** A key-down still waiting for its key-up when
  recording stops yields no token.
- **No lower-casing in the parser.** `"C-S"` binds the key `"S"`. Event keys
  are lower-cased before comparison, so such a binding never matches.
- **Raw key in `prevMod`.** `prevMod` keeps the modifier key exactly as the
  event reports it.
  - Binding keys are lower-case (`"control"`), while browsers report
    `"Control"`.
  - So a sequence whose first chord is a lone modifier, such as `"C a"`,
    continues only when the host spells the key in lower case, as the tests
    do.
  - `CtrlThenALowerCase` and `CtrlThenABrowserCase` show both outcomes.

## Model

| member | source | states |
|---|---|---|
| Strings.Lower | src/kikey.ts:65 | `toLowerCase` keeps the length and lower-cases each ASCII letter; nothing else changes |
| Strings.LowerIsLower | src/kikey.ts:62 | lower-casing leaves no upper-case letter and is idempotent |
| Strings.Split | kikey.js:44 | `split` on one separator yields at least one part, and no part contains the separator |
| Strings.SplitJoin | src/kikey.ts:219 | splitting a join gives the parts back when no part contains the separator |
| Strings.JoinSplit | kikey.js:44 | joining the parts of a split gives the string back |
| Strings.SplitConcat | kikey.js:44 | splitting at one separator splits the two sides independently |
| Strings.NonEmpty | src/kikey.ts:135 | the filter keeps exactly the non-empty strings, each as often as it occurs, and never lengthens the list |
| Strings.NonEmptyKeeps | src/kikey.ts:135 | filtering a list without empty strings changes nothing |
| Strings.NonEmptyConcat | src/kikey.ts:135 | filtering a concatenation filters the two halves independently and joins the results |
| Strings.OneUnit | kikey.js:45 | `length == 1`: the string is one character no higher than U+FFFF |
| Strings.JsLength | kikey.js:58 | `length` counts UTF-16 code units: never fewer than the characters, 0 only for the empty string, and 1 exactly for a `OneUnit` string |
| Keys.IsModifierKey | src/kikey.ts:54-56 | `isModifierKey`: the lower-cased key is `control`, `shift`, `alt` or `meta` |
| Keys.EventBinding | src/kikey.ts:64-65 | the chord an event presents: its four flags and its lower-cased key |
| Keys.ModifierNotSpecial | kikey.js:4-32 | a modifier key name is longer than one character and is no special name |
| Parser.MakeBinding | kikey.js:37-71 | `makeBinding`: split on `-`; refuse a segment that is neither one UTF-16 code unit nor a special name; set each flag whose letter is a segment; bind the last segment, or the modifier of a lone letter |
| Parser.ParseBinding | kikey.js:37-71 | the segment loop and the one-code-unit promotion compute `MakeBinding`; the result is an error exactly when some segment is neither one UTF-16 code unit nor a special name |
| Parser.Tokenize | src/kikey.ts:133-135 | the tokens are the space-separated fields with every empty one dropped; none is empty or contains a space |
| Parser.ParseSequence | src/kikey.ts:133-136 | `EmptySequence` exactly when there is no token; success exactly when every token parses, with one binding per token |
| Parser.ParseAll | src/kikey.ts:133-136 | mapping `makeBinding` over the tokens succeeds iff every token parses; it then yields one binding per token, in order; a failure is `InvalidBinding` |
| Parser.ParseAllOk | src/kikey.ts:136 | tokens that all parse map to the list of their bindings, in order |
| Parser.ParseAllErr | src/kikey.ts:136 | one refused token makes the whole mapping fail with that token's error |
| Parser.LoneModifierLetter | kikey.js:58-68 | a token that is exactly `C`, `S`, `A` or `M` sets only its own flag and binds `control`/`shift`/`alt`/`meta` |
| Parser.LoneCharacter | kikey.js:45-50 | any other token of one UTF-16 code unit except `-` binds itself with no flag set |
| Parser.AstralCharacterRejected | kikey.js:45-55 | a character above U+FFFF has length 2 and is no special name, so a token made of it, or ending in it after a `-`, is rejected |
| Parser.DoubleDashRejected | kikey.js:44-55 | a token with two adjacent `-` is rejected |
| Parser.TrailingDashRejected | kikey.js:44-55 | a token ending in `-` is rejected |
| Parser.LeadingDashRejected | kikey.js:44-55 | a token starting with `-` is rejected |
| Parser.EmptyTokenRejected | kikey.js:44-55 | the empty token is rejected |
| Parser.UnknownNameRejected | kikey.js:51-55 | a multi-character segment that is not a special name is rejected, alone or after other segments |
| Parser.AcceptedFields | kikey.js:45-56 | a token that is not one UTF-16 code unit and whose segments are all valid sets each flag exactly when its letter is a segment, and binds the last segment with its alias resolved |
| Parser.SegmentOrderIrrelevant | kikey.js:45-52 | two tokens with the same set of segments and the same last segment give the same binding, whatever the order and repetition |
| Parser.SameMembersSameValidity | kikey.js:45-55 | whether every segment is accepted depends only on which segments occur |
| Matcher.Callbacks | src/kikey.ts:67 | the registry's keys, one per entry, in iteration order |
| Matcher.Advances | src/kikey.ts:70-79 | the match test: the current chord is the event's chord, and the cursor is 0 or the previous chord's key is `prevKey` or `prevMod` |
| Matcher.StepRegistration | src/kikey.ts:68-90 | one iteration: advance and report, fire and reset on completion, or report the old cursor and reset |
| Matcher.StepRegistry | src/kikey.ts:67-91 | the key-down loop keeps the registry's length, and each entry becomes what its own step makes of it |
| Matcher.StepRegistryPrefix | src/kikey.ts:67-91 | one more iteration appends that entry's new state and its calls to those of the entries before it |
| Matcher.Handle | src/kikey.ts:58-97 | handling an event keeps every cursor in range, changes no bindings, callbacks or listeners, and never changes `isEnabled` |
| Matcher.Run | src/kikey.ts:58-97 | the same for a series of events |
| Matcher.SetEntry | src/kikey.ts:137-141 | `registry.set`: replace the entry with the same callback in place, or append the new one |
| Matcher.Delete | src/kikey.ts:146-148 | `registry.delete`: drop the entry with that callback |
| Matcher.Register | src/kikey.ts:127-142 | `on`: parse the sequence, then `set` a registration with cursor 0, or return the parse error |
| Matcher.Unregister | src/kikey.ts:146-148 | `off`: `delete` the callback's entry |
| Matcher.SetEntryLookup | src/kikey.ts:137-141 | after `set`, the key maps to the new entry and every other key to what it had |
| Matcher.SetEntryCallbacks | src/kikey.ts:137-141 | `set` keeps the key order and appends a key that was absent |
| Matcher.SetEntryNew | src/kikey.ts:137-141 | `set` with an absent key appends the entry after all others |
| Matcher.SetEntryMembers | src/kikey.ts:137-141 | `set` adds no entry except the new one |
| Matcher.DeleteLookup | src/kikey.ts:146-148 | after `delete`, the key maps to nothing and every other key to what it had |
| Matcher.DeleteCallbacks | src/kikey.ts:146-148 | `delete` removes the key and keeps the order of the others |
| Matcher.DeleteMembers | src/kikey.ts:146-148 | `delete` adds no entry |
| Matcher.WithoutKeepsOthers | src/kikey.ts:146-148 | removing a key keeps exactly the other keys, and keeps them distinct |
| Matcher.DeleteAbsent | src/kikey.ts:146-148 | deleting an absent key changes nothing |
| Matcher.RegisterIsMapSet | src/kikey.ts:127-142 | `on` with a sequence that fails to parse returns the error and changes nothing. Otherwise the callback maps to a fresh registration of the parsed bindings with cursor 0, in its old position or last. Every other entry and all other state are kept, and the registry stays well formed |
| Matcher.UnregisterIsMapDelete | src/kikey.ts:146-148 | `off` removes only that callback's entry, keeps the others in order, and is a no-op for an unknown callback |
| Matcher.DisabledRunIsInert | src/kikey.ts:59 | while disabled, no sequence of events changes the state or calls anything |
| Matcher.KeyUpEffect | src/kikey.ts:61-62 | a key-up calls nothing. It sets `prevKey` to its lower-cased key unless the key is a modifier, and then changes nothing |
| Matcher.KeyDownEffect | src/kikey.ts:93-95 | a key-down keeps `prevKey`. It stores its raw, not lower-cased key in `prevMod` exactly when the key is a modifier |
| Matcher.KeyDownCursor | src/kikey.ts:67-90 | on a key-down, a cursor advances by one when all five fields match and the previous chord's key is `prevKey` or `prevMod` (or the cursor is 0). Otherwise, or on completion, it drops to 0 |
| Matcher.StepRegistrationCalls | src/kikey.ts:80-89 | an advance reports the new cursor. A completion reports the sequence's length, then fires the callback. A mismatch reports the cursor it had before the reset |
| Matcher.StepRegistrationFires | src/kikey.ts:80-85 | one registration fires its callback once when it completes and otherwise not at all |
| Matcher.StepRegistryFires | src/kikey.ts:67-91 | over the whole loop, a callback fires exactly once if its registration completes, else never |
| Matcher.AnyFiresSnoc | src/kikey.ts:67-91 | a callback completes along the registry iff it completes before the last entry or at the last one, and never at both, since keys are distinct |
| Matcher.FiresExactlyOnce | src/kikey.ts:58-97 | one event fires a callback exactly once when it is an enabled key-down that completes its registration, and never otherwise |
| Matcher.SingleChordFires | src/kikey.ts:67-85 | a single-chord registration fires on every matching key-down, whatever came before |
| Matcher.RunConcat | src/kikey.ts:58-97 | handling events in two batches is handling them at once |
| Matcher.RunPair | src/kikey.ts:58-97 | two events are handled one after the other, their calls in order |
| Matcher.RunKeepsCallbacks | src/kikey.ts:58-97 | handling events keeps the registry's keys, in order, and its well-formedness |
| Matcher.ReplayAdvances | src/kikey.ts:67-91 | pressing and releasing the first k chords of a lower-case sequence puts its cursor at k. The k-th chord's key is then `prevKey` or `prevMod` |
| Matcher.PressLastFires | src/kikey.ts:67-85 | pressing the last chord of a sequence whose previous chord's key was just seen fires its callback |
| Matcher.ReplayFires | src/kikey.ts:67-91 | pressing and releasing every chord of a lower-case sequence, from cursor 0, fires its callback |
| Recorder.ChordToken | src/kikey.ts:191-212 | the token of one key-down: the set modifier letters joined by `-`, then `-` and the key name when both are non-empty |
| Recorder.Chords | src/kikey.ts:185-217 | one token for each key-down directly followed by a key-up, in order |
| Recorder.Reconstruct | src/kikey.ts:185-219 | those tokens joined by spaces |
| Recorder.StartsFrom | src/kikey.ts:188-190 | the chord starts from an index on: in range, strictly increasing, and every start is listed |
| Recorder.StartsCons | src/kikey.ts:188-190 | a chord start in front of the later ones keeps the list in range, increasing and complete |
| Recorder.TokensAt | src/kikey.ts:191-213 | one token per given index, each the token of the key-down at that index |
| Recorder.ChordsFrom | src/kikey.ts:185-217 | the scan from an index on emits the tokens of the chord starts from there, in order |
| Recorder.ChordsAtStarts | src/kikey.ts:185-217 | `stopRecord` emits exactly one token per chord start, in chronological order |
| Recorder.ChordsSnoc | src/kikey.ts:188-216 | one more event adds a token exactly when it is a key-up right after a key-down |
| Recorder.TrailingKeyDownDropped | src/kikey.ts:190 | a trailing key-down yields no token |
| Recorder.LettersFacts | src/kikey.ts:191-195 | the letters are C, S, A, M, each present iff its flag is set |
| Recorder.KeyTokenSegments | src/kikey.ts:195-212 | the token of a covered non-modifier key-down splits on `-` into its modifier letters followed by its key name, and the parser accepts every one of those segments |
| Recorder.LettersThenKey | src/kikey.ts:195-212 | joining modifier letters with `-` and appending `-` and a key part splits back into the letters and the key part |
| Recorder.KeyNameFacts | src/kikey.ts:197-205 | the key part of a covered non-modifier key-down is one valid segment without `-` or space, no modifier letter, and resolves to the lower-cased key |
| Recorder.SegmentFlags | src/kikey.ts:191-195 | the letters followed by a key part that is no letter name exactly the flags set |
| Keys.SpecialKeyIsWord | kikey.js:4-32 | every special name is longer than one character and contains neither `-` nor a space |
| Recorder.LettersHaveNoSpace | src/kikey.ts:195 | joined modifier letters contain no space |
| Recorder.JoinSnoc | src/kikey.ts:195-208 | joining one more part appends the separator and that part |
| Recorder.ChordRoundTrip | kikey.js:37-71 | parsing the token written for a covered key-down gives back its four flags and its lower-cased key |
| Recorder.AstralKeyNotCovered | src/kikey.ts:191-212 | a key-down whose key is one character above U+FFFF is not covered: the recorder writes that character last, and the parser refuses the token |
| Recorder.ModifierRoundTrip | kikey.js:58-68 | a lone modifier key-down with only its own flag is written as its letter, which parses back to its binding |
| Recorder.KeyRoundTrip | kikey.js:37-71 | any other covered key-down's token parses back to its four flags and its lower-cased key |
| Recorder.ChordTokenIsWord | src/kikey.ts:206-213 | a covered key-down's token is non-empty and has no space |
| Recorder.ModifierToken | src/kikey.ts:191-212 | a lone modifier key-down with only its own flag set is written as that flag's letter alone |
| Recorder.ModifierTokenIsWord | src/kikey.ts:191-212 | that letter is non-empty and has no space |
| Recorder.KeyTokenIsWord | src/kikey.ts:195-212 | the token of any other covered key-down is non-empty and has no space |
| Recorder.ChordBindings | src/kikey.ts:185-217 | one binding per chord start |
| Recorder.TokenizeReconstruct | src/kikey.ts:219 | splitting `stopRecord`'s result on spaces gives its tokens back, each parsing to its chord's binding when every chord is covered |
| Recorder.ReconstructionParses | src/kikey.ts:133-136 | `on` reads `stopRecord`'s result as the recorded chords' bindings when every chord is covered, or refuses it when no chord was recorded |
| Instance.StepEntry | src/kikey.ts:68-90 | one loop iteration computes the registration's step: the new cursor and the calls made |
| Instance.StepAll | src/kikey.ts:67-91 | updating every entry in place, in iteration order, yields the registry loop's entries and calls |
| Instance.ParseTokens | src/kikey.ts:136 | parsing the tokens in order yields all their bindings, or the error of the first one refused |
| Instance.ScanChords | src/kikey.ts:185-217 | the two-index scan pushes exactly the tokens of the chord starts, in order |
| Instance.BuildToken | src/kikey.ts:191-212 | building the letters and the key part computes the chord's token |
| Instance.Kikey.constructor | src/kikey.ts:48-52 | a new instance is empty, enabled and not recording |
| Instance.Kikey.HandleKeyEvent | src/kikey.ts:58-97 | the in-place loop leaves the matcher state `Handle` gives, appends `Handle`'s calls to the trace, and keeps the recorder's fields |
| Instance.Kikey.PushEvent | src/kikey.ts:108-110 | the event is appended to the record |
| Instance.Kikey.Dispatch | src/kikey.ts:99-110 | the matcher handles the event, then the recorder keeps it while recording |
| Instance.Kikey.On | src/kikey.ts:127-142 | a sequence that fails to parse returns its error and leaves the registry unchanged; otherwise the state is `Register`'s |
| Instance.Kikey.Off | src/kikey.ts:146-148 | the state becomes `Unregister`'s |
| Instance.Kikey.Enable | src/kikey.ts:152-154 | sets the flag and changes nothing else |
| Instance.Kikey.Disable | src/kikey.ts:158-160 | clears the flag and changes nothing else |
| Instance.Kikey.StartRecord | src/kikey.ts:164-170 | recording starts |
| Instance.Kikey.StopRecord | src/kikey.ts:174-220 | the two-index scan returns the reconstruction of the record. It then empties the record and stops recording |
| Scenarios.CtrlS | kikey.test.js:12-18 | `"C-s"` binds Ctrl and `s` |
| Scenarios.CtrlShiftS | kikey.test.js:19-25 | `"C-S-s"` binds Ctrl, Shift and `s` |
| Scenarios.AltMetaDash | kikey.test.js:40-46 | `"A-M-dash"` binds Alt, Meta and `-` |
| Scenarios.SpaceName | kikey.test.js:26-32 | `"space"` binds `" "` |
| Scenarios.DashName | kikey.test.js:33-39 | `"dash"` binds `"-"` |
| Scenarios.EscapeName | kikey.test.js:47-53 | `"escape"` binds itself |
| Scenarios.SpecialKeyParses | kikey.js:51-52 | every special name other than `space` and `dash` parses to itself with no flag set |
| Scenarios.RejectedTokens | kikey.test.js:6-10 | `""`, `"A--"` and `"--"` are rejected |
| Scenarios.UpperCaseKeyKept | kikey.js:50 | `"C-S"` binds Ctrl, Shift and the key `"S"` |
| Scenarios.SimpleBindingRegisters | kikey.test.js:82 | `on("C-s")` registers the one chord Ctrl+s |
| Scenarios.SimpleBinding | kikey.test.js:80-88 | `"C-s"` fires once on Ctrl+s and no more after `off` |
| Scenarios.BacktickFires | kikey.test.js:89-94 | ``"`"`` registers the backtick, which fires on its key-down |
| Scenarios.SpaceFires | kikey.test.js:95-98 | `"space"` registers the chord `" "`, which fires on a key-down reporting a space |
| Scenarios.ModifierOnlyRegisters | kikey.test.js:140 | `on("A")` registers the Alt key alone |
| Scenarios.ModifierOnlyBinding | kikey.test.js:138-143 | `"A"` fires on the Alt key with Alt held |
| Scenarios.SpecialKeyFires | kikey.test.js:100-136 | each special name registers as itself and fires on that key |
| Scenarios.PlainKeyFires | kikey.test.js:100-136 | a token that parses to its own text registers as one chord and fires on that key's key-down |
| Scenarios.PressAdvances | src/kikey.ts:69-81 | a key-down matching the current chord, not the last one, advances the cursor and reports it |
| Scenarios.PressCompletes | src/kikey.ts:69-85 | a key-down matching the last chord reports the length, fires the callback and resets the cursor |
| Scenarios.PressMismatch | src/kikey.ts:69-89 | a key-down that does not continue the sequence reports the old cursor and resets it |
| Scenarios.TwoChordsRegistered | kikey.test.js:145-146 | `"S-A-s a"` registers its two chords |
| Scenarios.ShiftAltS | kikey.test.js:146 | `"S-A-s"` binds Shift, Alt and `s` |
| Scenarios.TwoChordsReleased | kikey.test.js:147-151 | with the first key released in between, the second chord fires |
| Scenarios.TwoChordsUnreleased | src/kikey.ts:76-78 | without that key-up it does not fire, whatever `prevKey` and `prevMod` hold other than `s` |
| Scenarios.ThreeChordsRegistered | kikey.test.js:170-171 | `"a b c"` registers its three chords |
| Scenarios.ThreeChordsReleased | kikey.test.js:169-178 | pressing and releasing a, b, c fires |
| Scenarios.ThreeChordsUnreleased | kikey.test.js:180-185 | pressing a, b, c without key-ups calls nothing, whatever `prevKey` and `prevMod` hold other than `a`, so also on the tests' shared instance |
| Scenarios.CtrlThenALowerCase | kikey.test.js:153-159 | `"C a"` fires after a key-down reporting `control`, its key-up and `a` |
| Scenarios.CtrlThenARegistered | kikey.test.js:153-154 | `"C a"` registers the chords Ctrl alone, then `a` |
| Scenarios.CtrlThenABrowserCase | src/kikey.ts:93-95 | with the key reported as `Control` the same presses do not fire |
| Scenarios.ShiftTwiceFires | kikey.test.js:161-167 | `"S S"` fires on Shift, released and pressed again |
| Scenarios.ShiftTwiceRegistered | kikey.test.js:161-162 | `"S S"` registers Shift alone twice |
| Scenarios.ProgressReported | src/kikey.ts:80-85 | the listener hears 1, then 2, and then the callback fires |
| Scenarios.MismatchReportsOldCursor | src/kikey.ts:86-89 | after an advance to 1, a mismatch reports 1 |
| Scenarios.ProgressAlongTwo | src/kikey.ts:76-85 | for any two lower-case one-character chords, pressing, releasing, then pressing reports 1, then 2, then fires |
| Scenarios.MismatchAlongTwo | src/kikey.ts:79-89 | for any two-chord sequence, a wrong second key reports the cursor 1 twice |
| Scenarios.RecordThenReplay | src/kikey.ts:185-219 | registering the reconstruction of a record under a new callback, then pressing and releasing the recorded chords, fires that callback |
| Scenarios.OnThenOff | kikey.test.js:80-88 | through the instance's methods the callback is called exactly once |
| Scenarios.RecordedCtrlS | src/kikey.ts:185-219 | Ctrl+s pressed and released reconstructs to `"C-s"` |
| Scenarios.RecordCtrlS | src/kikey.ts:164-219 | through the instance's methods, recording Ctrl+s returns `"C-s"` |

## Left out

- **DOM wiring is not modelled.** This covers `addEventListener` and
  `removeEventListener`, the check for a browser environment, and the choice
  of target element. Events are fed explicitly with `Dispatch`, and
  `startRecord`/`stopRecord` set a recording flag instead of attaching a
  listener.
- **The `dist/` bundles are not modelled.** They are build output of an older
  version that behaves differently.
- **`src/makeBinding`, `src/parseBinding` and `src/constants` are not part of
  this model.** `test/makeBinding.test.ts` and `test/parseBinding.test.ts`
  test the first two. Their vectors are those of kikey.test.js:5-55, which
  `Scenarios` restates against the parser written out in `kikey.js`.
- **`test/kikey.test.ts` is not part of this model.** It tests `createKikey`,
  which also has `once` and reads `src/constants`. `once` is therefore not
  modelled; the other tests there repeat those of `kikey.test.js`.
- **Callbacks never throw.** In the source, a throwing callback would leave
  its cursor at the sequence's length.
- **A callback cannot call `on` or `off` while the registry is being
  iterated.** Re-entrancy is not modelled.
- **Strings.Lower lower-cases ASCII letters only.** Full Unicode case mapping
  is not modelled.
- **Matcher.Register and Instance.Kikey.On refuse an empty sequence.** A
  sequence without any token returns `EmptySequence`. The source would store a
  registration with no bindings, and the next key-down would then read past
  its end.
- **Instance.Kikey.On takes the callback as an argument.** A call of `on`
  without a callback uses a fresh no-op function each time, so such calls
  never replace one another. The model represents this by the caller passing
  a new id.
- **Recorder.ChordRoundTrip covers only `RoundTrips` key-downs.** Those are:
  - a key of one UTF-16 code unit, or a special name other than the words
    `space` and `dash`, with any modifier flags;
  - a modifier key with only its own flag set.

  Other key-downs do not round-trip in the source either:
  - `Delete` is written as `delete`, which the parser rejects;
  - Shift pressed while Ctrl is held is written as `C-S`, which parses with
    the key `S`;
  - a key of one character above U+FFFF is written as itself, and the parser
    refuses it because its `length` is 2 (`Recorder.AstralKeyNotCovered`).

  The rows above call these key-downs *covered*.
- **Scenarios.RecordThenReplay requires a callback that is not yet
  registered, and requires every recorded chord to be one that round-trips.**
