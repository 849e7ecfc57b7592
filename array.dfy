/**
 * A dynamic array kept as a logical length plus a dictionary from
 * position to element (arrays/array.py). The dictionary plays the part
 * of the buffer: its keys are always exactly 0 .. length-1, and reading
 * a key that is not there is the only way an operation can fail.
 */
module Arrays {

  /** The one failure the source can raise: a dictionary lookup of a key
      that is not present (Python's KeyError), carrying that key. */
  datatype Failure = KeyError(key: int)

  datatype Result<T> = Ok(value: T) | Err(error: Failure)

  /** Dictionary subscript `data[key]`: the value, or a KeyError for a
      missing key. */
  function Lookup<T>(data: map<int, T>, key: int): (r: Result<T>)
    ensures key in data ==> r == Ok(data[key])
    ensures key !in data ==> r == Err(KeyError(key))
  {
    if key in data then Ok(data[key]) else Err(KeyError(key))
  }

  /** The representation invariant: the keys of `data` are exactly the
      positions 0 .. n-1, no gaps and nothing else. */
  ghost predicate Dense<T>(data: map<int, T>, n: int)
  {
    forall k :: k in data <==> 0 <= k < n
  }

  /** The logical sequence the first `n` positions of `data` stand for. */
  function Contents<T>(data: map<int, T>, n: nat): (s: seq<T>)
    requires forall k :: 0 <= k < n ==> k in data
    ensures |s| == n
    ensures forall k :: 0 <= k < n ==> s[k] == data[k]
  {
    if n == 0 then [] else Contents(data, n - 1) + [data[n - 1]]
  }

  /** Under the invariant the logical length is the number of keys. */
  lemma {:induction false} DenseSize<T>(data: map<int, T>, n: nat)
    requires Dense(data, n)
    ensures |data| == n
  {
    if n == 0 {
      forall k
        ensures k !in data.Keys
      {
      }
      assert data.Keys == {};
    } else {
      var rest := data - {n - 1};
      assert Dense(rest, n - 1);
      DenseSize(rest, n - 1);
      assert data.Keys == rest.Keys + {n - 1};
    }
  }

  /** The abstraction is one-to-one on valid stores: two dense dictionaries
      of the same length with the same contents are the same dictionary. */
  lemma DenseStoreDeterminedByContents<T>(d1: map<int, T>, d2: map<int, T>, n: nat)
    requires Dense(d1, n) && Dense(d2, n)
    requires Contents(d1, n) == Contents(d2, n)
    ensures d1 == d2
  {
    forall k | k in d1
      ensures k in d2 && d1[k] == d2[k]
    {
      assert d1[k] == Contents(d1, n)[k];
    }
    forall k
      ensures k in d1.Keys <==> k in d2.Keys
    {
    }
    assert d1.Keys == d2.Keys;
  }

  /** The left shift of `_shift_items` at `index`, stated on the
      dictionaries before and after: positions below `index` keep their
      value, every position from `index` on takes the value one above it,
      and the top key n-1 is gone. */
  ghost predicate LeftShifted<T>(before: map<int, T>, after: map<int, T>, n: int, index: int)
  {
    && 0 <= index < n
    && Dense(before, n) && Dense(after, n - 1)
    && (forall k :: 0 <= k < index ==> after[k] == before[k])
    && (forall k :: index <= k < n - 1 ==> after[k] == before[k + 1])
  }

  /** A left shift at `index` removes exactly the element at `index` from
      the logical sequence. */
  lemma ShiftedContents<T>(before: map<int, T>, after: map<int, T>, n: nat, index: int)
    requires LeftShifted(before, after, n, index)
    ensures Contents(after, n - 1) == Contents(before, n)[..index] + Contents(before, n)[index + 1..]
  {
    var s, t := Contents(before, n), Contents(after, n - 1);
    forall k | 0 <= k < n - 1
      ensures t[k] == (s[..index] + s[index + 1..])[k]
    {
      if k < index {
        assert t[k] == after[k] == before[k];
      } else {
        assert t[k] == after[k] == before[k + 1] == s[k + 1];
      }
    }
  }

  /** The dictionary `cur` after the overwrites of positions index .. i-1
      of a left shift at `index` on the `n` keys of `before`. */
  ghost predicate ShiftedUpTo<T>(before: map<int, T>, cur: map<int, T>, n: int, index: int, i: int)
  {
    && 0 <= index <= i < n
    && Dense(before, n) && Dense(cur, n)
    && (forall k :: 0 <= k < index ==> cur[k] == before[k])
    && (forall k :: index <= k < i ==> cur[k] == before[k + 1])
    && (forall k :: i <= k < n ==> cur[k] == before[k])
  }

  /** One overwrite, reading position i+1 before position i is replaced. */
  lemma ShiftStep<T>(before: map<int, T>, cur: map<int, T>, n: int, index: int, i: int)
    requires ShiftedUpTo(before, cur, n, index, i) && i < n - 1
    ensures ShiftedUpTo(before, cur[i := cur[i + 1]], n, index, i + 1)
  {
  }

  /** Once every position up to n-2 is overwritten, dropping the top key
      leaves a valid dictionary of n-1 keys holding the old contents
      without position `index`. */
  lemma ShiftFinished<T>(before: map<int, T>, cur: map<int, T>, n: nat, index: int)
    requires ShiftedUpTo(before, cur, n, index, n - 1)
    ensures Dense(cur - {n - 1}, n - 1)
    ensures LeftShifted(before, cur - {n - 1}, n, index)
    ensures Contents(cur - {n - 1}, n - 1) == Contents(before, n)[..index] + Contents(before, n)[index + 1..]
  {
    var after := cur - {n - 1};
    assert Dense(after, n - 1);
    assert LeftShifted(before, after, n, index);
    ShiftedContents(before, after, n, index);
  }

  class Array<T> {
    var length: nat
    var data: map<int, T>

    ghost predicate Valid()
      reads this
    {
      Dense(data, length)
    }

    /** The elements of the array, in index order. */
    ghost function Elems(): seq<T>
      reads this
      requires Valid()
    {
      Contents(data, length)
    }

    constructor ()
      ensures Valid()
      ensures length == 0 && data == map[]
      ensures Elems() == []
    {
      length := 0;
      data := map[];
    }

    /** The element at `index`; a KeyError for every index outside
        0 .. length-1, negative ones and `length` included. */
    method Get(index: int) returns (r: Result<T>)
      requires Valid()
      ensures 0 <= index < length ==> r == Ok(Elems()[index])
      ensures !(0 <= index < length) ==> r == Err(KeyError(index))
    {
      r := Lookup(data, index);
    }

    /** Stores `item` under key `length`, then counts it; returns the new
        length. */
    method Push(item: T) returns (newLength: nat)
      requires Valid()
      modifies this
      ensures Valid()
      ensures data == old(data)[old(length) := item]
      ensures length == old(length) + 1 && newLength == length
      ensures Elems() == old(Elems()) + [item]
    {
      data := data[length := item];
      length := length + 1;
      newLength := length;
    }

    /** Reads key `length-1` (a KeyError for key -1 on an empty array,
        before anything changes), removes that key and uncounts it. */
    method Pop() returns (r: Result<T>)
      requires Valid()
      modifies this
      ensures Valid()
      ensures old(length) == 0 ==>
        r == Err(KeyError(-1)) && length == old(length) && data == old(data)
      ensures old(length) > 0 ==>
        && r == Ok(old(Elems())[old(length) - 1])
        && data == old(data) - {old(length) - 1}
        && length == old(length) - 1
        && Elems() == old(Elems())[..length]
    {
      r := Lookup(data, length - 1);
      if r.Err? {
        return;
      }
      data := data - {length - 1};
      length := length - 1;
    }

    /** Reads the element at `index` (a KeyError, with nothing changed,
        when there is none), shifts every later element one place left,
        and returns the element read first, not the one shifted in. */
    method Delete(index: int) returns (r: Result<T>)
      requires Valid()
      modifies this
      ensures Valid()
      ensures !(0 <= index < old(length)) ==>
        r == Err(KeyError(index)) && length == old(length) && data == old(data)
      ensures 0 <= index < old(length) ==>
        && r == Ok(old(Elems())[index])
        && length == old(length) - 1
        && LeftShifted(old(data), data, old(length), index)
        && Elems() == old(Elems())[..index] + old(Elems())[index + 1..]
    {
      r := Lookup(data, index);
      if r.Err? {
        return;
      }
      ghost var shifts := ShiftItems(index);
    }

    /** Overwrites positions index .. length-2, in ascending order, each
        with the value one above it, then drops the top key and uncounts
        it. `shifts` counts the overwrites. */
    method ShiftItems(index: int) returns (ghost shifts: nat)
      requires Valid() && 0 <= index < length
      modifies this
      ensures Valid()
      ensures length == old(length) - 1
      ensures LeftShifted(old(data), data, old(length), index)
      ensures Elems() == old(Elems())[..index] + old(Elems())[index + 1..]
      ensures shifts == old(length) - 1 - index
    {
      ghost var before, n := data, length;
      var i := index;
      shifts := 0;
      while i < length - 1
        invariant length == old(length)
        invariant ShiftedUpTo(before, data, length, index, i)
        invariant shifts == i - index
      {
        ShiftStep(before, data, length, index, i);
        data := data[i := data[i + 1]];
        i := i + 1;
        shifts := shifts + 1;
      }
      ghost var shifted := data;
      ShiftFinished(before, shifted, n, index);
      data := data - {length - 1};
      length := length - 1;
      assert data == shifted - {n - 1} && length == n - 1;
    }
  }

  /** Pushing `x` and then popping gives back `x` and leaves the array
      exactly as it was. */
  method PushThenPop<T>(a: Array<T>, x: T) returns (r: Result<T>)
    requires a.Valid()
    modifies a
    ensures a.Valid()
    ensures r == Ok(x)
    ensures a.length == old(a.length) && a.data == old(a.data)
  {
    var n := a.Push(x);
    r := a.Pop();
    DenseStoreDeterminedByContents(a.data, old(a.data), a.length);
  }

  /** The module's demonstration: four pushes, a pop, then delete(1). */
  method Scenario() returns (popped: Result<string>, deleted: Result<string>, final: map<int, string>, finalLength: nat)
    ensures popped == Ok("!") && deleted == Ok("hello")
    ensures final == map[0 := "hi", 1 := "there"] && finalLength == 2
  {
    var a := new Array<string>();
    var n := a.Push("hi");
    n := a.Push("hello");
    assert a.Elems() == ["hi", "hello"];
    n := a.Push("there");
    n := a.Push("!");
    assert a.Elems() == ["hi", "hello", "there", "!"];
    popped := a.Pop();
    assert a.Elems() == ["hi", "hello", "there"];
    deleted := a.Delete(1);
    assert a.Elems() == ["hi", "there"];
    final, finalLength := a.data, a.length;
    DenseStoreDeterminedByContents(final, map[0 := "hi", 1 := "there"], 2);
  }
}
