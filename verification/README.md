# jsonxs path expressions, modelled in Dafny

jsonxs reads, writes and deletes values deep inside a JSON-like tree of
dicts and lists. The caller names the value with a path expression such as
`feed.tags[-1]` or `feed.short\.desc` and picks one of seven actions. This
project models three parts of it:

- the regular-expression tokenizer (`jsonxs/tokenizer.py`), which turns an
  expression into OBJECT and LIST steps;
- the evaluator `jsonxs` (`jsonxs/core.py`), which walks the tree along the
  steps and then applies get, set, del, append, insert, mkdict or mklist;
- the older character-by-character splitter (`jsonxs/tokenize.py`).

The modules:

- `Results` holds the `Option` and `Result` types; `Error` stands for any
  exception the source raises.
- `Numerals` covers digit runs and Python's `int()` on sign-and-digits text.
- `Tokenizer` is the lexer. Its letter class is a parameter `isLetter`,
  constrained by `Admissible`.
- `TokenizerRender` gives a canonical text for every well-formed path and
  proves the tokenizer reads it back.
- `TokenizerScenarios` holds the expectations of `tests/test_tokenize.py`
  and the failure rules.
- `Evaluator` holds the tree `Json`, the actions, one step of the walk
  (`Advance`), the terminal action (`Terminal`) and the entry point
  (`Jsonxs`). The source mutates the caller's tree in place. Here every call
  returns the rebuilt tree together with the value the call returns.
- `EvaluatorLaws` states the evaluator's behaviour against a strict
  reference lookup `Resolve` and update `Put`.
- `EvaluatorScenarios` holds the expectations of `tests/test_jsonsx.py` on
  its example tree.
- `LegacySplitter` and `LegacySplitterLaws` cover the older splitter and
  its round trip.

Where the code and its description disagree, the model follows the code:

- MKDICT on an intermediate missing key stores `{}` and does not descend
  into it. A later key is created beside it, not inside it
  (`EvaluatorLaws.MkDictSiblings`). MKLIST does descend.
- The terminal MKDICT stores `{}` under the whole token tuple rather than
  its key (`jsonxs/core.py:145`). Under a string-keyed mapping that shows no
  change, so MKDICT of an existing key leaves its value alone.
- The name rule `[^\W\d_]` excludes whitespace, digits and `_`, so names
  are runs of letters only.
- A name without an escaped dot needs at least two letters: the second
  letter run of the rule must be non-empty (`TokenizerScenarios.SingleLetterFails`).
- The docstring says a default overrides all exceptions. In the code the
  default is returned only when an OBJECT step misses its key under GET.
  `in` on a number or `None` raises, so an OBJECT step on such a value fails
  even for GET (`EvaluatorLaws.ObjectStepOnScalar`).

## Model

| member | source | states |
|---|---|---|
| Numerals.DigitRun | jsonxs/tokenizer.py:19 | the greedy `\d+`: every character it takes is a digit and the next one is not |
| Numerals.NatText | jsonxs/tokenizer.py:39 | the decimal text of a natural number is all digits and its value is that number |
| Numerals.ParseInt | jsonxs/tokenizer.py:39 | `int()` on the texts this model admits: it succeeds exactly on an optional leading minus followed by at least one digit, a text with a leading minus reads as at most zero, and one without as at least zero |
| Numerals.LeadingZero | jsonxs/tokenizer.py:39 | `int()` ignores a leading zero, so `007` and `7` read the same |
| Numerals.NegativeText | jsonxs/tokenizer.py:39 | `int()` of a minus sign followed by digits is the negation of the digits' value |
| Numerals.IntText | jsonxs/tokenizer.py:39 | `int()` reads the canonical text of any integer back as that integer, and the text is an optional minus then digits |
| Tokenizer.Unescape | jsonxs/tokenizer.py:48 | `replace` never lengthens the text and keeps a first character that is not a backslash; with `TokenizerRender.UnescapeEscapeKey` it undoes the escaping of every key without a backslash |
| Tokenizer.LetterRun | jsonxs/tokenizer.py:23 | the greedy letter run: all letters up to it and a non-letter, or the end, at it |
| Tokenizer.MatchName | jsonxs/tokenizer.py:23 | a NAME match spans at least two characters of the input, all of which some lexeme can contain |
| Tokenizer.GetToken | jsonxs/tokenizer.py:16-27 | a match consumes at least one character and at most the input, all of them lexical |
| Tokenizer.ListToken | jsonxs/tokenizer.py:30-39 | a list group consumes at least three characters (`[`, an integer, `]`), all lexical |
| Tokenizer.Tokenize | jsonxs/tokenizer.py:52-73 | on success: every step costs at least two characters, every key is one the NAME rule can produce, and no character is unmatched; an expression starting with a digit, `-` or `]` fails (at a later step start too, when that character cannot extend the name before it: `TokenizerScenarios.StrayAfterPath`, `TokenizerScenarios.StepStartFails`); one starting with `[` starts with a LIST step, one starting with a letter with an OBJECT step |
| Tokenizer.NameIsKey | jsonxs/tokenizer.py:42-49 | the key of every NAME match is a key the grammar admits |
| Tokenizer.PlainKey | jsonxs/tokenizer.py:48 | a name without an escape is its own key |
| Tokenizer.EscapedKey | jsonxs/tokenizer.py:48 | replacing `\.` turns `a\.b` into the key `a.b` |
| Tokenizer.LetterRunIs | jsonxs/tokenizer.py:23 | the letter run is the only split into letters then a non-letter |
| TokenizerRender.NameOfKey | jsonxs/tokenizer.py:42-49 | a key written with its dot escaped is matched whole as one NAME and unescapes to the key |
| TokenizerRender.UnescapeEscapeKey | jsonxs/tokenizer.py:48 | replacing `\.` by `.` undoes the escaping of any key without a backslash |
| TokenizerRender.IntegerOfText | jsonxs/tokenizer.py:19 | the text of an integer is matched whole as one INTEGER |
| TokenizerRender.ListOfIndex | jsonxs/tokenizer.py:30-39 | `[i]` is read as one list group with index `i` |
| TokenizerRender.GroupNeedsInteger | jsonxs/tokenizer.py:30-39 | a `[` followed by no integer makes the whole expression fail |
| TokenizerRender.UnclosedGroup | jsonxs/tokenizer.py:30-39 | `[` and an integer that no `]` closes make the whole expression fail |
| TokenizerRender.TokenizeSeparator | jsonxs/tokenizer.py:64-65 | a separator adds no step |
| TokenizerRender.TokenizeStep | jsonxs/tokenizer.py:59-71 | one step's text in front of the rest adds exactly that step in front of the rest's steps |
| TokenizerRender.TokenizeStepError | jsonxs/tokenizer.py:59-73 | one step's text in front of text whose scan fails, and which cannot extend a NAME (it starts with neither a letter nor a backslash), makes the whole scan fail: an error is not lost behind an earlier step |
| TokenizerRender.TokenizeJoin | jsonxs/tokenizer.py:52-73 | the canonical text of a well-formed path, with or without a leading separator, tokenizes to that path |
| TokenizerRender.JoinThenError | jsonxs/tokenizer.py:52-73 | the canonical text of any well-formed path followed by text whose scan fails and which cannot extend the last name (it starts with neither a letter nor a backslash, e.g. a stray INTEGER or `]`, or a broken list group) fails as a whole |
| TokenizerRender.TokenizeRender | jsonxs/tokenizer.py:52-73 | round trip: every well-formed path is the result of tokenizing its rendering; with `Tokenize`'s own contract, well-formed paths are exactly the results of successful scans |
| TokenizerRender.NameInFront | jsonxs/tokenizer.py:66-68 | a plain name before text that starts a new step adds one OBJECT step in front of that text's steps |
| TokenizerRender.TokenizeName | jsonxs/tokenizer.py:66-68 | a key, written with its dot escaped, before text that starts a new step adds one OBJECT step carrying that key |
| TokenizerRender.TokenizeGroup | jsonxs/tokenizer.py:61-63 | `[i]` before text that starts a new step adds one LIST step carrying `i` |
| TokenizerRender.DottedName | jsonxs/tokenizer.py:42-49 | a key with one dot is written with the dot escaped, matched whole as one NAME, and unescapes back to the key |
| TokenizerScenarios.ThreeNames | jsonxs/tokenizer.py:59-71 | three names joined by dots give three OBJECT steps in order |
| TokenizerScenarios.NameThenDotted | jsonxs/tokenizer.py:23 | an escaped dot between two letter runs stays inside one key |
| TokenizerScenarios.NamesThenGroup | jsonxs/tokenizer.py:59-71 | two names and a list group give two OBJECT steps and a LIST step |
| TokenizerScenarios.NamesAndGroups | jsonxs/tokenizer.py:59-71 | names and list groups alternate in order without a dot before a group |
| TokenizerScenarios.ObjectPath | tests/test_tokenize.py:9-16 | `an.object.path` gives the keys `an`, `object`, `path` |
| TokenizerScenarios.UnicodeObjectPath | tests/test_tokenize.py:18-25 | a non-ASCII letter is a name character |
| TokenizerScenarios.EscapedSeparator | tests/test_tokenize.py:27-33 | `an.object\.path` gives `an` and `object.path` |
| TokenizerScenarios.NestedArrays | tests/test_tokenize.py:35-41 | `[0][1]` gives indices 0 and 1 |
| TokenizerScenarios.NegativeArrays | tests/test_tokenize.py:43-48 | `[-1]` gives index -1 |
| TokenizerScenarios.CombinedPaths | tests/test_tokenize.py:50-58 | `start[1].next[2]` gives key, index, key, index |
| TokenizerScenarios.SingleLetterFails | jsonxs/tokenizer.py:69-73 | a lone letter not followed by a letter or an escape is unexpected input |
| TokenizerScenarios.StrayAfterPath | jsonxs/tokenizer.py:69-70 | after any well-formed path, a digit, `-` or `]` directly behind it makes the scan fail |
| TokenizerScenarios.StepStartFails | jsonxs/tokenizer.py:69-70 | after any well-formed path and a separator, a digit, `-` or `]` where the next step starts makes the scan fail |
| TokenizerScenarios.ListGroupShape | jsonxs/tokenizer.py:30-39 | a successful scan that starts with `[` has a closing `]`, and the text between reads as the index of the first step |
| TokenizerScenarios.ListTokenShape | jsonxs/tokenizer.py:30-39 | a list group is `[`, an integer text and `]`, and its index is what `int()` makes of that text |
| Evaluator.ParseAction | jsonxs/core.py:93-99 | the seven action strings select their actions and nothing else does: a result maps back to the string, and every action's string selects it |
| Evaluator.Norm | jsonxs/core.py:118-120 | Python's index convention: a valid index names position `i`, or `n + i` when negative, inside the list |
| Evaluator.Member | jsonxs/core.py:118-119 | Python `in`: key membership on a mapping, element membership on a list, occurrence as a contiguous piece on a string, and a TypeError on `None` or a number |
| Evaluator.SubstringAt | jsonxs/core.py:119 | the recursive substring test finds the key exactly when it occurs at some position of the string |
| Evaluator.Child | jsonxs/core.py:118-120 | a step strictly resolves exactly when it is a present key of a mapping or a valid index of a list |
| Evaluator.Advance | jsonxs/core.py:116-131 | one step of the walk: a resolving step descends to its child; only GET gives up with the default; a created container is the child of the parent it was written into; a skipped step keeps the node's kind |
| Evaluator.PyInsert | jsonxs/core.py:142-143 | `list.insert` grows the list by one, and for a valid index puts the value at its position with the elements before and after kept |
| Evaluator.Write | jsonxs/core.py:138-139 | assignment succeeds exactly on a resolving step or a key of a mapping, and afterwards the step resolves to the value written |
| Evaluator.Remove | jsonxs/core.py:136-137 | `del` succeeds exactly on a resolving step, and removes just that key or that element |
| Evaluator.Terminal | jsonxs/core.py:133-149 | the final action keeps the parent's kind, returns `None` for every action but GET, and GET returns the node reached without changing anything |
| Evaluator.Walk | jsonxs/core.py:114-149 | the walk returns a tree of the same kind as the one it was given, GET leaves the tree unchanged, and only GET returns a value |
| Evaluator.Eval | jsonxs/core.py:114-149 | with no steps GET returns the root and every other action fails; otherwise as `Walk` |
| EvaluatorLaws.WalkLift | jsonxs/core.py:116-120 | along a prefix that resolves, every action only descends, so the walk is the walk from the node reached, plugged back into the tree |
| EvaluatorLaws.EvalLast | jsonxs/core.py:116-149 | a path ending in one step after a resolving prefix acts at the prefix's node |
| EvaluatorLaws.GetResolved | jsonxs/core.py:134-135 | GET on a path that resolves returns the value there and leaves the tree unchanged |
| EvaluatorLaws.GetMissingKey | jsonxs/core.py:121-123 | GET returns the default as soon as a key is missing from a mapping, whatever follows |
| EvaluatorLaws.ObjectStepOnScalar | jsonxs/core.py:119 | an OBJECT step on `None` or a number is an error for every action, GET included |
| EvaluatorLaws.ObjectStepInSequence | jsonxs/core.py:118-131 | an OBJECT step on a string or a list: a key `in` finds there fails for every action; a key it does not find gives the default under GET and an error under SET, MKDICT and MKLIST |
| EvaluatorLaws.ObjectSkip | jsonxs/core.py:118-131 | DEL, APPEND and INSERT step over a key `in` does not find: the path without that step behaves the same, and with no step after it the action fails |
| EvaluatorLaws.MkListThenStep | jsonxs/core.py:129-131 | MKLIST creates `[]` at a missing key and descends into it, so any further step fails |
| EvaluatorLaws.ListOutOfRange | jsonxs/core.py:118-120 | an index outside a list is an error for every action, GET included |
| EvaluatorLaws.ListSkip | jsonxs/core.py:118-121 | a LIST step on a node that is not a list, followed by further steps, is skipped: the path behaves as if it were absent |
| EvaluatorLaws.ListSkipLastGet | jsonxs/core.py:118-135 | a LIST step that ends a GET path on a node that is not a list is skipped as well: the GET answers that node |
| EvaluatorLaws.GetLastElement | jsonxs/core.py:118-120 | index -1 reads the last element of a list |
| EvaluatorLaws.WalkSetGet | jsonxs/core.py:116-139 | after a successful SET walk from any node, GET on the same path from the tree it left returns the value set |
| EvaluatorLaws.SetThenGet | jsonxs/core.py:124-139 | SET then GET of the same path returns the value set, including paths SET had to create |
| EvaluatorLaws.SetExisting | jsonxs/core.py:138-139 | SET on a path that resolves replaces the value there and changes nothing else |
| EvaluatorLaws.SetKey | jsonxs/core.py:138-139 | SET of a key of a mapping, present or not, writes that key alone |
| EvaluatorLaws.SetKeepsSibling | jsonxs/core.py:138-139 | after SET of one key of a mapping, every other key of it still reads its old value |
| EvaluatorLaws.SetCreatesPath | jsonxs/core.py:124-126 | SET through a missing key creates a mapping holding just the next key |
| EvaluatorLaws.DelKey | jsonxs/core.py:136-137 | DEL removes exactly the last key from its mapping |
| EvaluatorLaws.DelMissingKey | jsonxs/core.py:136-137 | DEL of a missing key is an error |
| EvaluatorLaws.DelElement | jsonxs/core.py:136-137 | DEL removes the element an index names, and later elements move down |
| EvaluatorLaws.AppendGrows | jsonxs/core.py:140-141 | APPEND adds the value at the end of the list a path resolves to |
| EvaluatorLaws.AppendNeedsList | jsonxs/core.py:140-141 | APPEND to anything but a list is an error |
| EvaluatorLaws.InsertAt | jsonxs/core.py:142-143 | INSERT at `[i]` puts the value into the list holding index `i`, before the element there |
| EvaluatorLaws.InsertNeedsIndex | jsonxs/core.py:142-143 | INSERT with a key as the last step is an error |
| EvaluatorLaws.MkListLeavesEmpty | jsonxs/core.py:146-147 | MKLIST leaves `[]` at a key of a mapping, whether it was there or not |
| EvaluatorLaws.MkDictMissing | jsonxs/core.py:127-128 | MKDICT leaves `{}` at a key the mapping lacks |
| EvaluatorLaws.MkDictSiblings | jsonxs/core.py:127-128 | MKDICT through two missing keys creates two sibling mappings rather than a nested one |
| EvaluatorLaws.JsonxsRender | jsonxs/core.py:102-149 | end to end: `jsonxs` on the canonical text of any well-formed path and an action's name is the evaluation of that path with that action |
| EvaluatorScenarios.GetPath | tests/test_jsonsx.py:35-41 | `feed.tags[-1]` reads `python` |
| EvaluatorScenarios.GetDottedKey | tests/test_jsonsx.py:43-49 | `feed.short\.desc` reads `A feed` |
| EvaluatorScenarios.GetSkipsIndex | jsonxs/core.py:118-135 | `feed.id[0]` steps over the index on the string `id` and reads `my_feed` |
| EvaluatorScenarios.GetDefault | tests/test_jsonsx.py:51-57 | `feed.long\.desc` is missing and returns the default |
| EvaluatorScenarios.SetValue | tests/test_jsonsx.py:65-72 | SET of `feed.id` stores the new string |
| EvaluatorScenarios.SetListElement | tests/test_jsonsx.py:74-81 | SET of `feed.tags[-1]` replaces the last tag |
| EvaluatorScenarios.SetCreatesMissing | tests/test_jsonsx.py:83-90 | SET of `missing.path` creates `missing` on the way |
| EvaluatorScenarios.DelListElement | tests/test_jsonsx.py:98-105 | DEL of `feed.tags[0]` drops the first tag |
| EvaluatorScenarios.DelObjectKey | tests/test_jsonsx.py:107-111 | DEL of `feed.url` drops the key |
| EvaluatorScenarios.AppendToList | tests/test_jsonsx.py:119-126 | APPEND to `feed.tags` adds a last tag |
| EvaluatorScenarios.InsertIntoList | tests/test_jsonsx.py:134-141 | INSERT at `feed.tags[1]` puts the value second |
| EvaluatorScenarios.MakeDict | tests/test_jsonsx.py:149-153 | MKDICT of `feed.details` leaves an empty mapping |
| EvaluatorScenarios.MakeList | tests/test_jsonsx.py:156-165 | MKLIST of `feed.users` leaves an empty list |
| EvaluatorScenarios.GetPathExpression | tests/test_jsonsx.py:35-41 | `jsonxs(d, 'feed.tags[-1]')`, from the expression text, returns `python` and leaves the tree unchanged |
| EvaluatorScenarios.GetDottedExpression | tests/test_jsonsx.py:43-49 | `jsonxs(d, 'feed.short\.desc')`, from the expression text, returns `A feed` |
| EvaluatorScenarios.GetDefaultExpression | tests/test_jsonsx.py:51-57 | `jsonxs(d, 'feed.long\.desc', default='N/A')`, from the expression text, returns `N/A` |
| EvaluatorScenarios.DelSkipsMissingKey | jsonxs/core.py:121-137 | DEL of `a.b` on `{"b": 1}` steps over the missing `a` and leaves `{}` |
| LegacySplitter.Feed | jsonxs/tokenize.py:11-36 | one character: the only failure is `]` after pending text that is not an integer; tokens are only appended, never changed; an escaped character is taken literally; no empty key is emitted |
| LegacySplitter.Run | jsonxs/tokenize.py:10-36 | the loop only appends tokens, never emits an empty key, and emits at most one token per character |
| LegacySplitter.Split | jsonxs/tokenize.py:1-40 | the result has no more tokens than characters and no empty key |
| LegacySplitter.SplitLoop | jsonxs/tokenize.py:1-40 | the source's loop, with its escape flag and pending buffer, computes the splitter's result |
| LegacySplitterLaws.PlainRun | jsonxs/tokenize.py:34-36 | text without special characters only extends the pending text |
| LegacySplitterLaws.EscRun | jsonxs/tokenize.py:11-18 | a key with its special characters escaped is read back literally |
| LegacySplitterLaws.KeyRun | jsonxs/tokenize.py:29-33 | an escaped key followed by `.` emits exactly that key |
| LegacySplitterLaws.IndexRun | jsonxs/tokenize.py:19-28 | `[n]` emits exactly the index `n` |
| LegacySplitterLaws.PartRun | jsonxs/tokenize.py:10-36 | one token's spelling, read with nothing pending, emits exactly that token |
| LegacySplitterLaws.SplitSpell | jsonxs/tokenize.py:10-40 | round trip: every token list without empty keys is what the splitter makes of its spelling |
| LegacySplitterLaws.TrailingKey | jsonxs/tokenize.py:37-38 | text left pending at the end becomes a final key: any spelled token list followed by an escaped non-empty key splits into the list and that key |
| LegacySplitterLaws.PlainText | jsonxs/tokenize.py:34-38 | text without special characters is one key, or nothing when empty |
| LegacySplitterLaws.EscapeKeepsNext | jsonxs/tokenize.py:11-18 | a backslash is dropped and the character after it is kept literally |
| LegacySplitterLaws.SeparatorsIdle | jsonxs/tokenize.py:19-33 | with nothing pending, `.`, `[` and `]` change nothing, so repeated separators add no token |
| LegacySplitterLaws.SeparatorEndsKey | jsonxs/tokenize.py:19-33 | `.` and `[` end the pending text as a string key |
| LegacySplitterLaws.BracketNeedsInteger | jsonxs/tokenize.py:24-28 | `]` after pending text that is not an integer makes the whole split fail |
| LegacySplitterLaws.TrailingBackslash | jsonxs/tokenize.py:15-18 | a trailing lone backslash is dropped |
| LegacySplitterLaws.EscapedDot | jsonxs/tokenize.py:11-18 | `a\.b` is the single key `a.b` |
| LegacySplitterLaws.TrailingSeparator | jsonxs/tokenize.py:29-33 | a trailing `.` adds nothing |

## Left out

- Evaluator.Jsonxs: tokenizes the whole expression before walking. The source's tokenizer is a generator consumed step by step, so a GET that returns the default before reaching a malformed part of the expression returns the default in the source but fails here.
- Evaluator.Jsonxs: a call that fails drops the whole result. The source has already mutated the caller's tree in place for the steps before the exception, and that partial change persists there.
- Evaluator.Write: writing an integer key into a mapping (a LIST step on a dict under SET or MKLIST) is an error here, because the modelled mappings have string keys only.
- Evaluator.Terminal: the terminal MKDICT writes under the token tuple as key. That entry is invisible to string-keyed mappings, so it is modelled as no change.
- A tree here is a value. The source mutates objects in place, so a dict or list reachable by two paths would show a change at both. JSON trees have no such sharing, and sharing is not modelled.
- Booleans, floats and other Python values are not part of `Json`. They behave like `Int` under `in`, which raises on them.
- The distinct exception types (KeyError, IndexError, TypeError, AssertionError, RuntimeError, ValueError, NameError) all become `Error`.
- Tokenizer.Tokenize: letters are the abstract `isLetter`, and digits are ASCII only. Python's Unicode `\d` also matches other decimal digits, which `int()` reads. That is not modelled.
- LegacySplitter.Feed: `int()` at `]` also accepts a leading `+`, surrounding whitespace, underscores between digits and non-ASCII decimal digits, so `[+1]`, `[ 1]` and `[1_0]` give an index in the source and fail here.
- The commented-out wildcard tests of `tests/test_tokenize.py` describe behaviour the code does not have, and are not modelled.
- Packaging, the module docstring's examples and the import shims are outside the core.
