# unset(obj, key) — a verified model

This project models `unset(obj, key)` from Kibana's legacy utilities. The
function deletes a property from a nested plain-object graph, in place. The
key is either a dot-delimited string (`'deep.three'`) or an array of segments
(`['deep', 'three']`). After the deletion it walks back up the path and
removes every object that the deletion left empty. The object passed in is
never removed, only emptied. A target that is not an object, a missing key and
an empty-string key all leave the target as it was.

The implementation module is not part of this model. Its behaviour is taken
from its Jest suite, `src/legacy/utils/unset.test.js`, whose cases each appear
here as a method.

Layout:

- `wrappers.dfy` (`Wrappers`): the `Option` type, used for a missing key.
- `tree.dfy` (`Tree`): the value graph `Value = Num | Text | Obj(map)`, lookup
  along a path (`Get`), "no empty object below the root" (`Pruned`) and
  "two paths part at some key" (`Diverges`), with the lookup fact
  `PrefixResolves`: every ancestor of a reachable path is a reachable object.
- `key_path.dfy` (`KeyPath`): the key argument `PathArg = StrPath | SegPath`.
  It holds the normaliser `Split` with its inverse `Join`, the round trips
  between them, and `Segments`, which turns the optional key into the segments
  that are walked.
- `unsetter.dfy` (`Unsetter`): `UnsetIn`, the descend, delete and prune
  function on an object's fields. `UnsetValue` is the whole call on a target
  value. The class `Target` holds the caller's variable `root`, and its method
  `Unset` changes it in place. Then come the general lemmas.
- `unset_tests.dfy` (`UnsetTests`): each test case allocates a `Target`, calls
  `Unset` on it and returns what the test inspects. Small lemmas compute the
  expected objects.

## Model

| member | source | states |
|---|---|---|
| KeyPath.Segments | src/legacy/utils/unset.test.js:19-29 | a missing key and the empty string both name no segment; an array key is walked exactly as given |
| KeyPath.Split | src/legacy/utils/unset.test.js:25-29 | a string key names no segment exactly when it is the empty string, so `''` is never the one-segment path `[""]` |
| KeyPath.SplitAll | src/legacy/utils/unset.test.js:57-58 | cutting a string at its dots yields at least one piece, and no piece contains a dot |
| KeyPath.JoinSplit | src/legacy/utils/unset.test.js:57-58 | every string key is the dot-join of the segments it is cut into, so cutting loses nothing |
| KeyPath.SplitAllJoin | src/legacy/utils/unset.test.js:57-65 | cutting the dot-join of dot-free segments gives back those segments |
| KeyPath.StringAndArrayKeysAgree | src/legacy/utils/unset.test.js:39-65 | a string key and the array of its dot-free segments walk the same segments (`'two'` and `['two']`, `'deep.three'` and `['deep','three']`) |
| Unsetter.UnsetIn | src/legacy/utils/unset.test.js:36-42 | the deletion never adds a key; every top-level key other than the path's first stays with its value; a one-segment path removes exactly that key |
| Unsetter.UnsetValue | src/legacy/utils/unset.test.js:13-29 | a non-object target is unchanged; with no segments to walk the target is unchanged; an object target stays an object (the root is never removed) |
| Unsetter.Target.constructor | src/legacy/utils/unset.test.js:35-37 | the caller's variable starts bound to the given value |
| Unsetter.Target.Unset | src/legacy/utils/unset.test.js:81-88 | the call changes the caller's object in place to `UnsetValue` of its old value, so a second call works on what the first left |
| Unsetter.StringAndArrayKeysUnsetAlike | src/legacy/utils/unset.test.js:39-65 | for every target, unsetting a string key and unsetting the array of its segments give the same result |
| Unsetter.LeafRemoved | src/legacy/utils/unset.test.js:57-60 | after the call nothing is reachable at the unset path |
| Unsetter.SiblingsUntouched | src/legacy/utils/unset.test.js:57-60 | every path that parts from the unset path at some key reaches the same value as before, at every level |
| Unsetter.AncestorKeptOrCollapsed | src/legacy/utils/unset.test.js:68-88 | each ancestor object of the deleted key is kept, holding the deletion's result, exactly when that result still has a key; otherwise it is gone |
| Unsetter.DeepRemovalKeepsParent | src/legacy/utils/unset.test.js:57-60 | deleting a key whose object keeps other keys leaves that object (minus the key) and every ancestor above it in place |
| Unsetter.CollapsesToEmpty | src/legacy/utils/unset.test.js:69-79 | the root is left empty if and only if every object along the path holds nothing but the next key of the path |
| Unsetter.PrunedPreserved | src/legacy/utils/unset.test.js:68-89 | if no object below the root was empty before the call, none is empty after it |
| UnsetTests.NotGivenAnObject | src/legacy/utils/unset.test.js:13-17 | unsetting `'e'` on the string `'hello'` leaves `'hello'` |
| UnsetTests.NotGivenAKey | src/legacy/utils/unset.test.js:19-23 | unsetting with no key leaves `{one: 1}` |
| UnsetTests.EmptyStringKey | src/legacy/utils/unset.test.js:25-29 | unsetting `''` leaves `{one: 1}` |
| UnsetTests.ShallowRemovalStringKey | src/legacy/utils/unset.test.js:39-42 | unsetting `'two'` gives `{one: 1, deep: {three: 3, four: 4}}` |
| UnsetTests.ShallowRemovalArrayKey | src/legacy/utils/unset.test.js:44-47 | unsetting `['two']` gives `{one: 1, deep: {three: 3, four: 4}}` |
| UnsetTests.DeepRemovalStringKey | src/legacy/utils/unset.test.js:57-60 | unsetting `'deep.three'` gives `{one: 1, two: 2, deep: {four: 4}}` |
| UnsetTests.DeepRemovalArrayKey | src/legacy/utils/unset.test.js:62-65 | unsetting `['deep', 'three']` gives `{one: 1, two: 2, deep: {four: 4}}` |
| UnsetTests.ClearWhenOnlyValueRemoved | src/legacy/utils/unset.test.js:69-73 | unsetting `'one.two.three'` on `{one: {two: {three: 3}}}` leaves the empty root `{}` |
| UnsetTests.ClearWhenNoPropsLeft | src/legacy/utils/unset.test.js:75-79 | unsetting `'one.two'` on `{one: {two: {three: 3}}}` leaves the empty root `{}` |
| UnsetTests.RemoveDeepThenClear | src/legacy/utils/unset.test.js:81-88 | on one object, unsetting `'one.two.three'` leaves `{one: {two: {four: 4}}}`, then unsetting `'one.two.four'` leaves `{}` |

## Left out

- The implementation of `unset` is not part of this model. Its behaviour comes from the test suite. Where the suite is silent, the model makes a choice, and no source line backs that choice. A missing key or a non-object value part-way along the path stops the descent, and nothing below that point changes. A leaf key that is absent deletes nothing. On the way back up, an object on the path that is empty after the step below it is still removed, even if it was already empty before the call. So an already-empty object above a missing key is removed, and so is a chain of such objects.
- Idempotence of a repeated call is not stated, because the suite does not exercise it.
- Arrays as containers, non-plain objects, prototypes, symbol keys and cyclic graphs are not modelled. The tests use only plain objects with string keys and number or string leaves.
- JavaScript's dynamic typing is reduced to the three `Value` variants, with `Obj` as the only container. Reference identity is reduced to the `Target` object holding `root`. The `toBe` check on a string target is modelled as value equality.
- The test harness (`describe`, `it`, `beforeEach`, `expect`) is not modelled. Each case is a method that rebuilds its fixture, as `beforeEach` does.
- How a string key with empty pieces is cut (`'a..b'`, `'.a'`) follows a plain split at every dot. The suite does not pin this down.
