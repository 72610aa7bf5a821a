# groupby, modelled in Dafny

The `groupby` library (version 1.0) has five grouping functions. Each takes a
sequence of key/value pairs, walks it once from front to back, and fills a
dictionary `out` that maps every distinct key to an aggregate of that key's
values:

- `count_groupby` counts each key's occurrences;
- `sum_groupby` adds the values, starting from the first value seen for the key;
- `list_groupby` collects the values in arrival order;
- `set_groupby` collects the distinct values;
- `generic_groupby` calls a caller-supplied `accumulate(current_or_None, v)`
  for each value and stores what it returns.

Each function also takes an optional `key` function. When it is given, every
element `x` of the input is first turned into the pair `(key(x), x)`.

The model has three modules:

- `GroupSpec` (group_spec.dfy) is the specification. `Keys(pairs)` is the set
  of keys that occur. `ValuesOf(pairs, k)` is the sequence of values paired
  with `k`, in order, with duplicates kept. `Sum` adds a sequence left to
  right. `Elements` gives the set of a sequence's values. `Fold` is the left
  fold of an `accumulate` that gets `None` first. `Keyed` is the
  `(key(x), x)` rewrite and `Select` is "the elements whose key is k". The
  module also proves the facts about these that the operations rely on.
- `Groupby` (groupby.dfy) holds one imperative method per library function.
  Each method runs a `while` loop over the input, updating a local `map`, as
  the source does. Its loop invariant relates the map to the prefix
  processed so far, and its postcondition gives the map's key set and each
  entry in terms of `ValuesOf`. One `...ByKey` method per function models the
  `key` argument: it groups `Keyed(xs, key)`. The same module proves that
  count, sum and list are the generic operation with a fixed accumulate.
- `GroupbyTests` (groupby_tests.dfy) restates the test suite's scenarios. It
  proves the expected maps for the concrete inputs. It also proves, for
  every input, that the generic operation with the tests' set-building
  accumulate equals the set operation, with and without a key function.

The lookup `out.get(k)` is `Get(out, k)`, which returns an `Option` and is
`None` exactly when `k` is absent. The stored aggregates are never absent
values, so this is the same test as the source's `is None`.

There is no averaging and no de-duplicating list operation in
`groupby/__init__.py`; the model covers the five functions that are there.

## Model

| member | source | states |
|---|---|---|
| `Groupby.CountGroupBy` | groupby/__init__.py:22-31 | the keys of the result are exactly the keys of the input; each key maps to the number of pairs with that key; the counts add up to the input length; an empty input gives an empty map |
| `Groupby.SumGroupBy` | groupby/__init__.py:38-47 | the keys are exactly the input's keys; each key maps to the sum of its values in arrival order (first value, then each later one added); empty input gives an empty map |
| `Groupby.ListGroupBy` | groupby/__init__.py:54-63 | the keys are exactly the input's keys; each key maps to exactly the subsequence of values paired with it, in order, duplicates kept; empty input gives an empty map |
| `Groupby.SetGroupBy` | groupby/__init__.py:70-79 | the keys are exactly the input's keys; each key maps to the set of its values; `v` is in the set of `k` if and only if the pair `(k, v)` occurs in the input; empty input gives an empty map |
| `Groupby.GenericGroupBy` | groupby/__init__.py:86-91 | the keys are exactly the input's keys; each key maps to the left fold of `accumulate` over its values, where the first call gets `None`; empty input gives an empty map |
| `Groupby.CountGroupByKey` | groupby/__init__.py:18-31 | with a key function the result is the count result for the pairs `(key(x), x)`: its keys are the image of the key function, each count is the number of elements with that key, and the counts add up to the input length |
| `Groupby.SumGroupByKey` | groupby/__init__.py:34-47 | with a key function the result is the sum result for the pairs `(key(x), x)`: each key maps to the sum of the elements with that key |
| `Groupby.ListGroupByKey` | groupby/__init__.py:50-63 | with a key function the result is the list result for the pairs `(key(x), x)`: each key maps to the elements with that key, in order |
| `Groupby.SetGroupByKey` | groupby/__init__.py:66-79 | with a key function the result is the set result for the pairs `(key(x), x)`: each key maps to the set of elements with that key |
| `Groupby.GenericGroupByKey` | groupby/__init__.py:82-91 | with a key function the result is the generic result for the pairs `(key(x), x)`: each key maps to the fold of `accumulate` over the elements with that key |
| `GroupSpec.Get` | groupby/__init__.py:25 | the lookup `out.get(k)`: `None` exactly when `k` is absent, otherwise the value stored under `k` |
| `GroupSpec.Keyed` | groupby/__init__.py:18-20 | the rewrite of every element `x` into the pair `(key(x), x)`, in order; `KeyedKeys` and `KeyedValues` state what grouping the rewritten pairs gives |
| `Groupby.CountAccumulate` | groupby/__init__.py:26-29 | the counting update: 1 when the key has no entry yet, one more than the entry otherwise; `FoldCount` states what folding it gives |
| `Groupby.SumAccumulate` | groupby/__init__.py:42-45 | the summing update: the value itself when the key has no entry yet, the entry plus the value otherwise; `FoldSum` states what folding it gives |
| `Groupby.ListAccumulate` | groupby/__init__.py:58-61 | the list update: a one-element list when the key has no entry yet, the entry with the value appended otherwise; `FoldList` states what folding it gives |
| `Groupby.SetAccumulate` | tests/test_groupby.py:87-92 | the test's `accumulate`: a singleton set when the key has no entry yet, the entry with the value added otherwise; `FoldSet` states what folding it gives |
| `Groupby.FoldCount` | groupby/__init__.py:25-29 | the counting update (1 on first sight, one more after that) folded over a group gives the group's length |
| `Groupby.FoldSum` | groupby/__init__.py:41-45 | the summing update (the first value, then each later one added) folded over a group gives the group's sum |
| `Groupby.FoldList` | groupby/__init__.py:57-61 | the list update (a one-element list, then append) folded over a group gives the group itself |
| `Groupby.FoldSet` | groupby/__init__.py:73-77 | the set update (a singleton, then add) folded over a group gives the group's set of values |
| `Groupby.CountIsGeneric` | groupby/__init__.py:24-29 | `count_groupby` equals `generic_groupby` with the counting update, on every input |
| `Groupby.SumIsGeneric` | groupby/__init__.py:40-45 | `sum_groupby` equals `generic_groupby` with the summing update, on every input |
| `Groupby.ListIsGeneric` | groupby/__init__.py:56-61 | `list_groupby` equals `generic_groupby` with the list update, on every input |
| `GroupSpec.AppendPair` | groupby/__init__.py:24-29 | processing one more pair `(k, v)` adds `k` to the keys and appends `v` to `k`'s group; every other key's group is unchanged |
| `GroupSpec.AppendPairValues` | groupby/__init__.py:88-89 | one more pair `(k, v)` extends `k`'s group by `v` and no other group, which is what the single update `out[k] = accumulate(...)` does |
| `GroupSpec.KeyOccursIffValues` | groupby/__init__.py:25-27 | a key is in the input exactly when its group of values is non-empty, so an entry exists from the key's first occurrence on |
| `GroupSpec.GroupSizesSum` | groupby/__init__.py:24-29 | a map from each key of the input to the size of its group sums to the input length |
| `GroupSpec.ValuesOfConcat` | groupby/__init__.py:56-61 | the group of `k` in a concatenation is the group in the first part followed by the group in the second: values keep their arrival order |
| `GroupSpec.ValuesOfMultiplicity` | groupby/__init__.py:56-61 | each value occurs in `k`'s group exactly as many times as the pair `(k, v)` occurs in the input |
| `GroupSpec.ValuesOfMembership` | groupby/__init__.py:72-77 | `v` is in `k`'s group if and only if the pair `(k, v)` occurs in the input |
| `GroupSpec.SumPermutation` | groupby/__init__.py:40-45 | the sum of a group does not depend on the order in which its values arrive |
| `GroupSpec.KeyedKeys` | groupby/__init__.py:19-20 | after the `(key(x), x)` rewrite the keys are exactly the key function's image of the input |
| `GroupSpec.KeyedValues` | groupby/__init__.py:19-20 | after the rewrite, the group of `k` is exactly the elements `x` with `key(x) == k`, in order |
| `GroupbyTests.CountPairsScenario` | tests/test_groupby.py:4-9 | counting `[(3,1),(1,1),(2,1),(3,1),(2,1),(3,1)]` gives `{1:1, 2:2, 3:3}` |
| `GroupbyTests.CountByKeyScenario` | tests/test_groupby.py:11-15 | counting `[1,3,1,2,3,2,3,4]` by `x % 3` gives `{0:3, 1:3, 2:2}` |
| `GroupbyTests.ListPairsScenario` | tests/test_groupby.py:39-44 | listing the six number/word pairs gives each number its two words in arrival order |
| `GroupbyTests.ListByKeyScenario` | tests/test_groupby.py:46-56 | listing the seven words by their first letter gives `'a'` the words `apple, apricot, apple` in that order, `'b'` `banana, blueberry`, `'o'` `orange` and `'w'` `weasel` |
| `GroupbyTests.SetPairsScenario` | tests/test_groupby.py:62-67 | collecting `[('x','apple'),('y','banana'),('x','apple'),('x','banana')]` gives `{'x': {'apple','banana'}, 'y': {'banana'}}` |
| `GroupbyTests.SetByKeyScenario` | tests/test_groupby.py:69-79 | collecting the same words by their first letter gives `'a'` the set `{apple, apricot}` (the second `apple` collapses), and `'b'`, `'o'`, `'w'` their sets |
| `GroupbyTests.GenericMatchesSet` | tests/test_groupby.py:88-98 | the generic operation with the set-building accumulate equals the set operation on every sequence of pairs |
| `GroupbyTests.GenericByKeyMatchesSet` | tests/test_groupby.py:100-102 | with a key function, the generic operation with the set-building accumulate equals the set operation on the rewritten pairs `(key(x), x)` |

## Left out

- Floating-point values: sums are over `int`. The float data of the sum test (tests/test_groupby.py:21-33) is not modelled.
- The `None` ambiguity of `out.get(k) is None`: in Python a stored aggregate that is itself `None` makes the next pair with that key take the "first occurrence" branch again. This happens in `sum_groupby` when a value is `None` (it is stored as is at groupby/__init__.py:43, so `sum_groupby([(1, None), (1, 3)])` gives `{1: 3}`), and in `generic_groupby` when `accumulate` returns `None`. The model rules out both: sum values are `int`, and `Option` keeps "absent" apart from every stored value.
- Run-time failures: elements that are not pairs, values without `+`, unhashable keys (a TypeError at the dictionary lookups `out.get(k)`, groupby/__init__.py:25, 41, 57, 73, 89), unhashable set values (at `{ v }` and `add`, lines 75 and 77), and a `key` or `accumulate` callback that raises. Dafny's types rule out the first four: the element type is a pair, sums are over `int`, and the equality-supporting type parameters `K(==)` and, for sets, `V(==)` stand in for hashability. The callbacks are total functions.
- Lazy inputs: generators and iterators are modelled as finite sequences read front to back.
- In-place mutation of the stored list or set (`accumulator.append(v)`, `accumulator.add(v)`): the model replaces the map entry with the extended list or set. These objects are created inside the call and nothing else refers to them, so the result is the same. The test's `accumulate`, which mutates its set, is modelled as a pure function.
- Dictionary insertion order: the result is a Dafny `map`, which has no order.
- The `sum_groupby` test with a key function (tests/test_groupby.py:28-33) is not restated as a concrete input because its data are floats. `SumGroupByKey` covers that case for every `int` input.
- The word tests' key `x[0]` fails on an empty string. The model's `Initial` returns a space there instead; every word in those tests is non-empty, so the results agree.
