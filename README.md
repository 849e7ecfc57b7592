# Dynamic array over a dictionary

A Dafny model of the `Array` class of `arrays/array.py`: a teaching-style
dynamic array that keeps a logical `length` and a dictionary `data` from
position to element. `push` stores at key `length` and counts the element,
`pop` removes the top key, `get` reads a key, and `delete` removes the
element at any position by shifting every later element one place left
(`_shift_items`) and then dropping the now-duplicate top key.

The model is one module, `Arrays` (`array.dfy`):

- `Array<T>` is a class with the source's two mutable fields, `length: nat`
  and `data: map<int, T>`. Its methods change them in place, with
  `modifies this`.
- `Valid()` is the representation invariant: the keys of `data` are
  exactly `0 .. length-1` (`Dense`).
- `Elems()` is the abstraction: the sequence `Contents(data, length)`.
  Every method states its effect on `length`, on `data` and on `Elems()`.
  For the shift, `data` is stated position by position through
  `LeftShifted`; with `Valid()`, `Elems()` alone already fixes `data`
  (`DenseStoreDeterminedByContents`).
- The only failure the source has is a dictionary lookup of a missing
  key. It is modelled as `Err(KeyError(key))`, carrying the key that was
  looked up. In every failing case the lookup comes before any change, so
  the failing branch promises that the state is unchanged.
- `_shift_items` is a `while` loop over ascending `i`. Its invariants say
  that slots `index .. i-1` already hold the old values one place above,
  and that the slots from `i` on still hold their old values.

`get`, `pop` and `delete` all fail with the same missing-key error, and
`pop` on an empty array fails looking up key `-1`; the model returns
`Err(KeyError(key))` in each case.

## Model

| member | source | states |
|---|---|---|
| `Arrays.Array.constructor` | arrays/array.py:2-4 | a new array has length 0, an empty dictionary, satisfies the invariant, and its contents are the empty sequence |
| `Arrays.Array.Get` | arrays/array.py:6-7 | for `0 <= index < length` returns the element at `index` of the contents; for every other index, negative ones and `length` included, a KeyError for that index; changes nothing |
| `Arrays.Array.Push` | arrays/array.py:9-12 | stores the item under the old length, increments the length, returns the new length, keeps the invariant; the contents become the old contents with the item appended |
| `Arrays.Array.Pop` | arrays/array.py:14-18 | on an empty array a KeyError for key -1 and no change; otherwise returns the last element, removes the top key, decrements the length, keeps the invariant, and the contents lose their last element |
| `Arrays.Array.Delete` | arrays/array.py:20-23 | out of range: a KeyError for that index and no change; in range: returns the element that was at `index` before the shift, the length drops by one, the invariant holds, the new dictionary is the left shift of the old one at `index`, and the contents are the old contents with position `index` removed |
| `Arrays.Array.ShiftItems` | arrays/array.py:25-29 | the new dictionary is the left shift of the old one at `index` (`LeftShifted`: positions below `index` keep their values, each position from `index` to the new top holds the old value one above it, the top key is gone), the length drops by one, the contents lose position `index`; the overwrite count is `length-1-index` |
| `Arrays.Lookup` | arrays/array.py:7-21 | the dictionary subscript used by `get`, `pop` and `delete`: the value under a present key, a KeyError carrying the key for an absent one |
| `Arrays.Contents` | arrays/array.py:1-29 | the abstraction from a dictionary to a sequence: the first `n` keys give a sequence of length `n` whose element `k` is the value under key `k` |
| `Arrays.DenseSize` | arrays/array.py:9-18 | under the invariant, the length equals the number of keys in the dictionary |
| `Arrays.DenseStoreDeterminedByContents` | arrays/array.py:2-29 | two valid dictionaries of the same length with the same contents are equal, so the contents state the whole state |
| `Arrays.ShiftedContents` | arrays/array.py:25-29 | a dictionary that is the left shift of another at `index` (`LeftShifted`) has as contents the old contents with position `index` removed |
| `Arrays.PushThenPop` | arrays/array.py:9-18 | pushing `x` then popping returns `x` and restores the prior length and dictionary exactly |
| `Arrays.Scenario` | arrays/array.py:32-41 | pushing "hi", "hello", "there", "!", then popping yields "!", then `delete(1)` yields "hello", and the final dictionary is `{0: "hi", 1: "there"}` with length 2 |

## Left out

- `bigO.py` is not part of this model: its functions time code with the wall clock, plot through matplotlib and numpy, or only print.
- The two `print(array.data)` calls of the demonstration are output only; `Scenario` returns the state they would show instead.
- Running time (constant-time push and pop, delete linear in `length - index`) is not verified; only the ghost overwrite count of `ShiftItems` is stated.
- Python's key semantics beyond integers (non-integer keys, `True == 1` hashing) and the exact exception class are not modelled: indices are `int` and the failure is an abstract `KeyError(key)`.
- Arrays.Array.ShiftItems: requires `0 <= index < length`, the condition its only caller (`delete`) has established by its successful lookup; direct calls of the private helper with other indices are not modelled.
- Concurrent use is not modelled; the class has no synchronisation and the model is sequential.
