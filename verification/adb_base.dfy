/** Types and constants shared by the whole model (adb.h). */
module AdbBase {
  newtype byte = b: int | 0 <= b < 256
  type Bytes = seq<byte>

  datatype Option<+T> = None | Some(value: T)

  const MAX_PAYLOAD: nat := 256 * 1024
  const TWO_32: nat := 0x1_0000_0000

  function Min(a: nat, b: nat): nat {
    if a <= b then a else b
  }

  /** The bytes of a list of chunks, in order. */
  function Flat(chunks: seq<Bytes>): Bytes {
    if chunks == [] then [] else chunks[0] + Flat(chunks[1..])
  }

  lemma {:induction false} FlatAppend(chunks: seq<Bytes>, d: Bytes)
    ensures Flat(chunks + [d]) == Flat(chunks) + d
  {
    if chunks == [] {
      assert chunks + [d] == [d];
      assert Flat([d][1..]) == [];
    } else {
      assert (chunks + [d])[1..] == chunks[1..] + [d];
      FlatAppend(chunks[1..], d);
    }
  }

  /** A C string ends at the first NUL. */
  function CString(s: Bytes): Bytes {
    if s == [] || s[0] == 0 then [] else [s[0]] + CString(s[1..])
  }

  lemma {:induction false} WholeCString(s: Bytes)
    ensures 0 !in s ==> CString(s) == s
    ensures 0 in s ==> |CString(s)| < |s|
  {
    if s != [] {
      WholeCString(s[1..]);
      assert s == [s[0]] + s[1..];
    }
  }

  lemma {:induction false} CStringNoNul(s: Bytes)
    ensures 0 !in CString(s) && CString(CString(s)) == CString(s) && CString(s + [0]) == CString(s)
  {
    if s == [] {
      assert [] + [0] == [0];
    } else {
      CStringNoNul(s[1..]);
      assert (s + [0])[0] == s[0] && (s + [0])[1..] == s[1..] + [0];
      if s[0] != 0 {
        assert CString(s) == [s[0]] + CString(s[1..]);
        assert CString(s)[1..] == CString(s[1..]);
      }
    }
  }

  /** std::list::remove. */
  function Without<T(==, !new)>(list: seq<T>, a: T): (r: seq<T>)
    ensures forall x :: x in r <==> x in list && x != a
    ensures |r| <= |list| && (a in list ==> |r| < |list|)
  {
    if list == [] then []
    else
      assert list == [list[0]] + list[1..];
      if list[0] == a then Without(list[1..], a) else [list[0]] + Without(list[1..], a)
  }

  predicate Distinct<T(==, !new)>(list: seq<T>) {
    forall i, j :: 0 <= i < j < |list| ==> list[i] != list[j]
  }

  lemma {:induction false} WithoutDistinct<T(!new)>(list: seq<T>, a: T)
    requires Distinct(list)
    ensures Distinct(Without(list, a))
  {
    if list != [] {
      WithoutDistinct(list[1..], a);
      assert list[0] !in list[1..];
    }
  }

  lemma {:induction false} NotThere<T(!new)>(list: seq<T>, a: T)
    requires a !in list
    ensures Without(list, a) == list
  {
    if list != [] {
      NotThere(list[1..], a);
    }
  }

  /** Erasing the element at an iterator. */
  lemma {:induction false} EraseAt<T(!new)>(list: seq<T>, i: nat)
    requires Distinct(list) && i < |list|
    ensures list[..i] + list[i + 1..] == Without(list, list[i])
  {
    var rest := list[1..];
    if i == 0 {
      NotThere(rest, list[0]);
      assert list[..0] + rest == rest;
    } else {
      EraseAt(rest, i - 1);
      assert list[..i] + list[i + 1..] == [list[0]] + (rest[..i - 1] + rest[i..]);
    }
  }
}
