# smart_arr<T> in Dafny

`smart_arr<T>` is an owning dynamic array that always has exactly the size asked for. It has two fields: the element count `width` and the buffer `arr`. All resizing goes through one primitive, `reserve`. The constructors, copy-assign, `make_smart` and `push` are built on it, and `size`, `operator bool`, `operator==` and `find` read the two fields.

The project has four modules:

- `ArrayModel` (model.dfy) holds the abstract state `Model(hasBuffer, width, elems)`. `hasBuffer` stands for `arr != 0`. Beside it is one function for each of reserve, push, copy-assign and make_smart, each stating in its `ensures` what the operation promises, and lemmas that relate several operations: a grow and shrink round trip, pushes against `make_smart`, a copy against its source, and equality as an equivalence.
- `SmartArray` (smart_arr.dfy) holds the class `SmartArr<T(==)>`, with the fields `width: nat` and `arr: array?<T>`, where a null `arr` means no buffer. Every method changes these fields in place. Reserve, copy-assign, make_smart, push and the constructors are proved to move the abstract state `Abs()` exactly as the matching `ArrayModel` function says. Move-assign and the write through `operator[]` state their new state directly, and move-assign also states which buffer each object ends with. The copy, `make_smart`, equality and find loops keep the source's index loops.
- `Lifecycle` (lifecycle.dfy) states which buffer slots `reserve` destroys and constructs, and what `reserve(0)` leaves in the handle. It gives the code as written beside the intended behaviour (see "## Findings").
- `Usage` (usage.dfy) has client methods that replay small scenarios using the class's contracts alone.

Modelling choices:

- Whether `realloc` succeeds is the parameter `grant`. `reserve(0)` never allocates, so there `grant` has no effect.
- A successful resize always gives a fresh Dafny array. The model never looks at whether `realloc` moved the buffer.
- T's default constructor is the object's constant `zero`. The copy and move constructors take it from their argument. For a T whose default-initialisation does nothing, such as `int`, the source leaves the added slots indeterminate, and `zero` stands in for whatever they hold (see "## Left out").
- T's `operator==` (smart_arr.h:94) and `operator!=` (smart_arr.h:83) are Dafny's equality on values, an equivalence relation, with `!=` its negation (see "## Left out").
- `reserve(0)` is corrected: the handle becomes null and the count 0 (first row under "## Findings"). Without this, the program's later calls would use a freed buffer.
- The destroy and construct steps of `reserve` follow the comments at smart_arr.h:47 and smart_arr.h:60: the old prefix is kept and the added slots are default-constructed. The source's off-by-one and misplaced placement new (the other two rows under "## Findings") are modelled separately in `Lifecycle`.
- The move constructor is reproduced as the code has it. `this->operator=(construct)` on a named rvalue reference picks the copy assignment, so the move constructor copies and leaves its argument unchanged (smart_arr.h:20).
- Move-assign is reproduced too: the moved-from object loses its buffer but keeps its old count (smart_arr.h:36). Two arrays without a buffer still compare equal, and `find` on one returns that stale count.
- On a failed resize, `push` writes the value into the last slot of the old buffer (smart_arr.h:69-70). The model reproduces this.

## Model

| member | source | states |
|---|---|---|
| ArrayModel.Resized | smart_arr.h:47-65 | the buffer after a resize to n has n elements; the first min(old length, n) are the old ones and the rest are the default value |
| ArrayModel.Reserve | smart_arr.h:47-65 | reserve(0) ends with no buffer and count 0; a failed reserve(n>0) leaves buffer and count as they were; a successful one gives a buffer of count n that keeps the old prefix and holds the default value in every new slot |
| ArrayModel.Push | smart_arr.h:68-71 | a successful push grows the count by one, puts v at the old count and leaves earlier elements unchanged; a failed one keeps the count and overwrites the last element with v |
| ArrayModel.CopyAssign | smart_arr.h:24-31 | with the resize succeeding, copying an array that has a buffer gives exactly that array; copying one without a buffer is only a resize to its count; with the resize failing, the count and allocation state stay and the old prefix of the source is copied in |
| ArrayModel.Equal | smart_arr.h:76-91 | two arrays with different allocation states are unequal; for valid arrays, equal means the same allocation state and the same elements, which also gives the same count when there is a buffer |
| ArrayModel.FromRaw | smart_arr.h:38-46 | a null pointer gives the empty array; a non-null one with a successful resize gives count n and the elements p[0..n); a failed resize gives the empty array |
| ArrayModel.EqualIsEquivalence | smart_arr.h:76-91 | when T's equality is an equivalence, the array equality operator is reflexive, symmetric and transitive |
| ArrayModel.NoBufferEqual | smart_arr.h:77-80 | two arrays without a buffer compare equal whatever their counts |
| ArrayModel.GrowShrinkRoundTrip | smart_arr.h:47-65 | growing an array and then shrinking it back to its old count gives back the same array |
| ArrayModel.ShrinkKeepsPrefix | smart_arr.h:47-65 | shrinking to n > 0 keeps exactly the first n elements |
| ArrayModel.CopyCompareEqual | smart_arr.h:24-31 | after a successful copy-assign from an array with a buffer, the result compares equal to the source |
| ArrayModel.PushAll | smart_arr.h:68-71 | pushing a sequence one element at a time keeps the array invariant |
| ArrayModel.PushAllFromEmpty | smart_arr.h:68-71 | pushing xs onto an empty array leaves a buffer holding exactly xs, or the empty array when xs is empty |
| ArrayModel.PushesMatchFromRaw | smart_arr.h:38-46 | the same contents built by pushes and by make_smart give the same array, so they compare equal |
| SmartArray.SmartArr.Empty | smart_arr.h:17 | the default constructor builds an array with no buffer and count 0 |
| SmartArray.SmartArr.Sized | smart_arr.h:18 | the sized constructor is reserve(length) on an empty array |
| SmartArray.SmartArr.Copy | smart_arr.h:19 | the copy constructor is copy-assign into an empty array; the source is unchanged and the new buffer is fresh |
| SmartArray.SmartArr.Moved | smart_arr.h:20 | the move constructor behaves exactly like the copy constructor; its argument keeps its buffer and contents |
| SmartArray.SmartArr.FromRawBuffer | smart_arr.h:21 | the pointer constructor is make_smart on an empty array |
| SmartArray.SmartArr.Reserve | smart_arr.h:47-65 | the new state is ArrayModel.Reserve of the old one; a successful reserve(n>0) installs a fresh buffer, reserve(0) nulls the handle, a failed one keeps the old buffer |
| SmartArray.SmartArr.Assign | smart_arr.h:24-31 | the new state is ArrayModel.CopyAssign of the old states; the source object is not modified, and self-assignment is covered |
| SmartArray.SmartArr.MoveAssign | smart_arr.h:32-37 | the target takes the source's very buffer (no element is copied), its count and its contents; the source ends with a null buffer and its old count; assigning to itself ends empty (see Left out) |
| SmartArray.SmartArr.MakeSmart | smart_arr.h:38-46 | the new state is ArrayModel.FromRaw of the raw buffer's contents, whatever the old state was |
| SmartArray.SmartArr.Push | smart_arr.h:68-71 | the new state is ArrayModel.Push of the old one; on success the buffer is fresh |
| SmartArray.SmartArr.At | smart_arr.h:72 | reading index i < count gives the i-th live element |
| SmartArray.SmartArr.SetAt | smart_arr.h:72 | writing through the reference changes element i only |
| SmartArray.SmartArr.Size | smart_arr.h:74 | size() is the stored count, also the stale count of an array without a buffer, and equals the buffer's length whenever there is a buffer |
| SmartArray.SmartArr.IsAllocated | smart_arr.h:75 | operator bool is true exactly when the array holds at least one live element |
| SmartArray.SmartArr.Equals | smart_arr.h:76-91 | with T's equality taken as value equality, true iff both have no buffer, or both have one with equal counts and equal elements; in particular a buffer and no buffer are unequal |
| SmartArray.SmartArr.Find | smart_arr.h:92-99 | with T's equality taken as value equality, the result is at most the count; it is below the count iff the value occurs, and then it is the lowest index holding the value; with no buffer it is the count |
| Lifecycle.DestroyClippedAsWritten | smart_arr.h:49-51 | the source's destroy loop destroys every clipped slot [length, width) except slot length, which is clipped but left alive whenever the array shrinks |
| Lifecycle.DestroyClipped | smart_arr.h:47-51 | the intended destroy loop destroys exactly the clipped slots [length, width) |
| Lifecycle.ConstructedAsWritten | smart_arr.h:60-61 | placement new as written constructs length - width slots, starting from slot 0 |
| Lifecycle.SlotsSize | smart_arr.h:60-61 | a growth from lo to hi adds exactly hi - lo slots |
| Lifecycle.PlacementMisses | smart_arr.h:60-61 | growing a non-empty array as written constructs over live slot 0, and misses every added slot when the array at most doubles |
| Lifecycle.ReserveLifecycle | smart_arr.h:47-65 | in a successful reserve the slots that lose their element are exactly the clipped ones, the default-valued slots are exactly the added ones, and every other slot keeps its old element |
| Lifecycle.ReserveZeroAsWritten | smart_arr.h:48-54 | reserve(0) as written keeps the count and never nulls the handle; on a handle already freed it frees again, exactly then |
| Lifecycle.IsAllocatedAsWritten | smart_arr.h:75 | operator bool as written reports a freed, dangling handle as allocated |
| Lifecycle.ReserveZeroLeavesStaleState | smart_arr.h:48-54 | after reserve(0) as written, operator bool still reports a buffer and size() the old count, though the buffer is freed; a second reserve(0), as the destructor makes, frees it twice |

## Left out

- Raw memory is not modelled: the byte layout of `malloc`, `realloc` and `free`, the overflow of `length * sizeof(T)`, and placement-new array cookies. A resize is "a buffer of n elements, or a failure".
- Counts are unbounded `nat`s, so `size_t` wrap-around (of `width + 1` in `push`, for one) is not modelled.
- The destructor `~smart_arr` (smart_arr.h:22) and the explicit `arr[ptr].~T()` calls have no effect on values. The model drops clipped elements, and `Lifecycle` records which slots the loop visits.
- Out-of-range `operator[]` is undefined behaviour. `At` and `SetAt` require an index below the count.
- `SmartArray.SmartArr.Push`: requires a buffer when the resize may fail. A failed resize with no buffer writes through a null pointer (smart_arr.h:70), which is undefined.
- `ArrayModel.CopyAssign`: requires `CopyDefined`. When the resize fails and the target is longer than the source, the copy loop reads past the end of the source's buffer (smart_arr.h:27-28).
- `SmartArray.SmartArr.Assign`: requires that two distinct objects never share one buffer, as the ownership rules guarantee.
- `SmartArray.SmartArr.MakeSmart`: requires that `p` is not the array's own buffer, which `reserve(0)` would free before the copy, and that it holds at least `length` elements.
- `realloc` on the dangling pointer left by `reserve(0)` as written, and the second `free` of it, do not arise, because the model corrects `reserve(0)`.
- `SmartArray.SmartArr.MoveAssign`: self move-assign ends with count 0 because of the corrected `reserve(0)`. The source's `a = std::move(a)` (smart_arr.h:33-36) ends with a null buffer and the old count, which size() would report.
- Elements destroyed before a failed shrink are not modelled. The destroy loop runs before `realloc` (smart_arr.h:48-51, 57), so a failed shrink leaves destroyed objects inside the counted range. The model keeps their values.
- A fresh buffer reached with a stale count (after move-assign) differs from the source. The source default-constructs only when `width < length`, so with the stale count some slots stay raw memory. The model default-constructs every slot there is no old element for.
- `pop`, `peek`, `remove`, `remove_resize`, `contains` and a raw-buffer accessor do not exist in smart_arr.h and are not modelled.
- T's comparison operators are not modelled separately. The model compares elements with Dafny's `==`, which is an equivalence, and takes `operator!=` (smart_arr.h:83) as its negation. A user-defined `operator==` or `operator!=` need not behave this way. For `smart_arr<double>` holding NaN, `a == a` is false and `find(NaN)` returns the count. `ArrayModel.EqualIsEquivalence`, `SmartArray.SmartArr.Equals` and `SmartArray.SmartArr.Find` hold only for a T whose equality is an equivalence.
- Indeterminate values are not modelled. `new(temp) T[length - width]` (smart_arr.h:61) default-initialises, so for a T without a non-trivial default constructor, such as `int`, the added slots keep whatever `realloc` (smart_arr.h:57) left in them. The model writes `zero` there instead. For such a T, `ArrayModel.Resized`, `ArrayModel.Reserve` and `SmartArray.SmartArr.Sized` promise `zero` where the source promises no value, and so does the `[0, 0]` in `Usage.MoveThenCompare`.
- There is no concurrency to model.

## Findings

| source | as written | input that shows it | evidently intended | confidence | as-written member | corrected member |
|---|---|---|---|---|---|---|
| smart_arr.h:52-54 | `reserve(0)` frees the buffer but leaves `arr` pointing at it and never assigns `width`; the next `reserve(0)` enters `if (arr)` and frees it again | `reserve(0)` on an array of count 2: `operator bool` is still true and `size()` is 2; copy-assigning an empty array into it (smart_arr.h:25) and then destroying it (smart_arr.h:22) frees the buffer twice | the handle is nulled and the count is 0 | high (not executed) | Lifecycle.ReserveZeroLeavesStaleState | ArrayModel.Reserve |
| smart_arr.h:49 | `for (ptr = length; ++ptr < width;)` starts at `length + 1` | `reserve(2)` on count 3: slot 2 is clipped but never destroyed | destroy every slot in [length, width) | high (not executed) | Lifecycle.DestroyClippedAsWritten | Lifecycle.DestroyClipped |
| smart_arr.h:60-61 | `new(temp) T[length - width]` constructs at the start of the buffer | `reserve(2)` on count 1: slot 0, which is live, is constructed over and slot 1 stays raw | construct the slots [width, length) | high (not executed) | Lifecycle.PlacementMisses | Lifecycle.ReserveLifecycle |
