/**
 * rosidl_runtime_c__U16String and its sequence as the deepseek-coder_19
 * fuzz driver implements them (its own stand-ins for init, fini and copy,
 * and the library's sequence functions), plus the helper that builds a
 * string from fuzz bytes.
 *
 * As for byte strings, a `U16String *` is a slot (`a`, `i`) of an array of
 * structs and a null array is NULL; a code-unit buffer is a
 * `Buffer<UInt16>` value.
 */
module RosidlU16String {
  import opened Memory

  /** The struct: `data` (NULL or a block of code units), `size`, `capacity`. */
  datatype U16Str = U16Str(data: Buffer<UInt16>, size: SizeT, capacity: SizeT)

  /** What init and fini leave: NULL, size 0, capacity 0. */
  const Cleared: U16Str := U16Str(Null, 0, 0)

  /** The first `size` code units can be read. */
  predicate Readable(s: U16Str)
  {
    s.size > 0 ==> s.data.Block? && s.size <= |s.data.elems|
  }

  /** The code units of a readable string. */
  function Contents(s: U16Str): (r: seq<UInt16>)
    requires Readable(s)
    ensures |r| == s.size
  {
    if s.size == 0 then [] else s.data.elems[..s.size]
  }

  function Elems(s: U16Str): seq<UInt16>
  {
    if s.data.Block? then s.data.elems else []
  }

  function Max(a: nat, b: nat): nat
  {
    if a < b then b else a
  }

  // ---------------------------------------------------------------------
  // U16String__init, U16String__fini

  /** The driver's U16String__init: clears the struct; fails only on NULL. */
  method U16Init(a: array?<U16Str>, i: nat) returns (ok: bool)
    requires a != null ==> i < a.Length
    modifies a
    ensures ok <==> a != null
    ensures a != null ==> a[i] == Cleared
    ensures a != null ==> forall k | 0 <= k < a.Length && k != i :: a[k] == old(a[k])
  {
    if a == null {
      return false;
    }
    a[i] := Cleared;
    ok := true;
  }

  /** The driver's U16String__fini: frees the buffer if any and clears the struct. */
  method U16Fini(a: array?<U16Str>, i: nat)
    requires a != null ==> i < a.Length
    modifies a
    ensures a != null ==> a[i] == Cleared
    ensures a != null ==> forall k | 0 <= k < a.Length && k != i :: a[k] == old(a[k])
  {
    if a == null {
      return;
    }
    a[i] := Cleared;
  }

  // ---------------------------------------------------------------------
  // U16String__copy

  /**
   * A fresh copy of the first `size` units of `input`. An empty input
   * gives the cleared struct (no buffer at all).
   */
  function Duplicate(input: U16Str): (r: U16Str)
    requires Readable(input)
    ensures Readable(r) && r.size == input.size && Contents(r) == Contents(input)
    ensures input.size == 0 ==> r == Cleared
    ensures input.size > 0 ==> r.capacity == input.size && r.data.Block?
  {
    if input.size == 0 then Cleared else U16Str(Block(Contents(input)), input.size, input.size)
  }

  /**
   * What a successful U16String__copy leaves in the output. The output
   * is cleared before the input is read, so copying a struct onto itself
   * leaves it empty.
   */
  function CopyResult(input: U16Str, same: bool): U16Str
    requires Readable(input)
  {
    if same then Cleared else Duplicate(input)
  }

  /**
   * The driver's U16String__copy: clear the output (its old buffer is not
   * freed), then, for a non-empty input, allocate `size` units and copy
   * them. An allocation failure clears the output and gives false.
   */
  method U16Copy(ia: array?<U16Str>, ii: nat, oa: array?<U16Str>, oi: nat) returns (ok: bool)
    requires ia != null ==> ii < ia.Length && Readable(ia[ii])
    requires oa != null ==> oi < oa.Length
    modifies oa
    ensures ia == null || oa == null ==> !ok
    ensures ia == null && oa != null ==> oa[oi] == old(oa[oi])
    ensures ok ==> oa[oi] == CopyResult(old(ia[ii]), ia == oa && ii == oi)
    ensures ia != null && oa != null && !ok ==> oa[oi] == Cleared
    ensures oa != null ==> forall k | 0 <= k < oa.Length && k != oi :: oa[k] == old(oa[k])
  {
    if ia == null || oa == null {
      return false;
    }
    var initialized := U16Init(oa, oi);
    if !initialized {
      return false;
    }
    var input := ia[ii];
    if input.size == 0 {
      return true;
    }
    var granted := Allocate();
    if !granted {
      U16Fini(oa, oi);
      return false;
    }
    oa[oi] := U16Str(Block(input.data.elems[..input.size]), input.size, input.size);
    ok := true;
  }

  // ---------------------------------------------------------------------
  // U16String__are_equal

  /** Same size and `memcmp` over `size * 2` bytes is 0, i.e. the first `size` units agree. */
  predicate U16Equal(l: U16Str, r: U16Str)
    requires l.size == r.size ==> Readable(l) && Readable(r)
  {
    l.size == r.size && MemEqual(Elems(l), Elems(r), l.size)
  }

  /** U16String__are_equal compares exactly the code units. */
  lemma U16EqualIsSameContents(l: U16Str, r: U16Str)
    requires Readable(l) && Readable(r)
    ensures U16Equal(l, r) <==> Contents(l) == Contents(r)
  {
    if l.size == r.size {
      MemEqualIsPrefixEquality(Elems(l), Elems(r), l.size);
    }
  }

  /** U16String__are_equal on two pointers. */
  predicate U16AreEqual(la: array?<U16Str>, li: nat, ra: array?<U16Str>, ri: nat)
    requires la != null ==> li < la.Length
    requires ra != null ==> ri < ra.Length
    requires la != null && ra != null && la[li].size == ra[ri].size ==> Readable(la[li]) && Readable(ra[ri])
    reads la, ra
  {
    la != null && ra != null && U16Equal(la[li], ra[ri])
  }

  /** are_equal is false on NULL, and otherwise holds exactly for equal sizes and code units. */
  lemma U16AreEqualMeaning(la: array<U16Str>, li: nat, ra: array<U16Str>, ri: nat)
    requires li < la.Length && ri < ra.Length
    requires Readable(la[li]) && Readable(ra[ri])
    ensures !U16AreEqual(null, li, ra, ri) && !U16AreEqual(la, li, null, ri)
    ensures U16AreEqual(la, li, ra, ri) <==>
              la[li].size == ra[ri].size && Contents(la[li]) == Contents(ra[ri])
  {
    U16EqualIsSameContents(la[li], ra[ri]);
  }

  /** A copy onto another struct compares equal to its source; a copy onto itself does not, unless it was empty. */
  lemma CopyResultEquality(input: U16Str, same: bool)
    requires Readable(input)
    ensures !same ==> U16Equal(CopyResult(input, same), input)
    ensures same ==> (U16Equal(CopyResult(input, same), input) <==> input.size == 0)
  {
    U16EqualIsSameContents(CopyResult(input, same), input);
  }

  // ---------------------------------------------------------------------
  // create_u16string_from_fuzz_data

  /** Fuzz bytes read as little-endian code units, two bytes per unit. */
  function Units(bytes: seq<Byte>): (r: seq<UInt16>)
    requires |bytes| % 2 == 0
    ensures |r| == |bytes| / 2
    decreases |bytes|
  {
    if bytes == [] then [] else [bytes[0] as int + 256 * bytes[1] as int] + Units(bytes[2..])
  }

  /** Code units written back as little-endian bytes. */
  function UnitBytes(units: seq<UInt16>): (r: seq<Byte>)
    ensures |r| == 2 * |units|
  {
    if units == [] then [] else [units[0] % 256, units[0] / 256] + UnitBytes(units[1..])
  }

  /** Reading the bytes back gives the units. */
  lemma {:induction false} UnitsOfUnitBytes(units: seq<UInt16>)
    ensures Units(UnitBytes(units)) == units
  {
    if units != [] {
      UnitsOfUnitBytes(units[1..]);
      assert UnitBytes(units)[2..] == UnitBytes(units[1..]);
    }
  }

  /** Writing the units back gives the bytes: no fuzz byte that was used is lost. */
  lemma {:induction false} UnitBytesOfUnits(bytes: seq<Byte>)
    requires |bytes| % 2 == 0
    ensures UnitBytes(Units(bytes)) == bytes
    decreases |bytes|
  {
    if bytes != [] {
      UnitBytesOfUnits(bytes[2..]);
      assert Units(bytes)[1..] == Units(bytes[2..]);
      assert bytes == [bytes[0], bytes[1]] + bytes[2..];
    }
  }

  /** The units a string built from `data[offset..size]` holds: a trailing odd byte is dropped. */
  function FuzzUnits(data: seq<Byte>, size: nat, offset: nat): (r: seq<UInt16>)
    requires offset <= size <= |data|
    ensures |r| == (size - offset) / 2
  {
    Units(data[offset..offset + 2 * ((size - offset) / 2)])
  }

  /**
   * create_u16string_from_fuzz_data: false for NULL or an offset at or
   * past the end; otherwise the string holds the `(size - offset) / 2`
   * units that follow the offset (none: the cleared struct). An
   * allocation failure clears the string and gives false.
   */
  method CreateU16StringFromFuzzData(a: array?<U16Str>, i: nat, data: seq<Byte>, size: SizeT, offset: SizeT)
    returns (ok: bool)
    requires a != null ==> i < a.Length
    requires size <= |data|
    modifies a
    ensures a == null || offset >= size ==> !ok
    ensures a != null && offset >= size ==> a[i] == old(a[i])
    ensures ok ==> var units := FuzzUnits(data, size, offset);
                   a[i] == if units == [] then Cleared else U16Str(Block(units), |units|, |units|)
    ensures a != null && offset < size && !ok ==> a[i] == Cleared
    ensures a != null ==> forall k | 0 <= k < a.Length && k != i :: a[k] == old(a[k])
  {
    if a == null || offset >= size {
      return false;
    }
    var remaining := size - offset;
    var count := remaining / 2;
    if count == 0 {
      ok := U16Init(a, i);
      return;
    }
    var initialized := U16Init(a, i);
    if !initialized {
      return false;
    }
    var granted := Allocate();
    if !granted {
      U16Fini(a, i);
      return false;
    }
    a[i] := U16Str(Block(Units(data[offset..offset + 2 * count])), count, count);
    ok := true;
  }

  // ---------------------------------------------------------------------
  // U16String__Sequence

  /** rosidl_runtime_c__U16String__Sequence. */
  class U16StringSequence {
    var data: array?<U16Str>
    var size: SizeT
    var capacity: SizeT

    /** A zero-initialised struct. */
    constructor Zeroed()
      ensures data == null && size == 0 && capacity == 0
    {
      data, size, capacity := null, 0, 0;
    }
  }

  /** `capacity` elements are there. */
  predicate Shaped(s: U16StringSequence)
    reads s
  {
    (s.data == null ==> s.capacity == 0) &&
    (s.data != null ==> s.capacity <= s.data.Length)
  }

  /**
   * A block, when there is one, holds `capacity` elements. This is all
   * Sequence__fini needs: it checks the other combinations itself.
   */
  predicate CapacityInBlock(s: U16StringSequence)
    reads s
  {
    s.data != null ==> s.capacity <= s.data.Length
  }

  /** `size` elements are there and each can be read. */
  predicate SourceReadable(s: U16StringSequence)
    reads s, s.data
  {
    s.size > 0 ==> s.data != null && s.size <= s.data.Length &&
                   forall k | 0 <= k < s.size :: Readable(s.data[k])
  }

  /** The sequence's elements. */
  function Elements(s: U16StringSequence): (r: seq<U16Str>)
    requires SourceReadable(s)
    reads s, s.data
    ensures |r| == s.size
  {
    if s.size == 0 then [] else s.data[..s.size]
  }

  /**
   * rosidl_runtime_c__U16String__Sequence__init: `size` cleared strings
   * (data NULL when `size` is 0). Element init cannot fail here, so only
   * the block allocation can make it return false, leaving the sequence
   * untouched.
   */
  method U16SequenceInit(sequence: U16StringSequence?, size: SizeT) returns (ok: bool)
    modifies sequence
    ensures sequence == null ==> !ok
    ensures ok ==> sequence != null && sequence.size == size && sequence.capacity == size
    ensures ok && size == 0 ==> sequence.data == null
    ensures ok && size > 0 ==> sequence.data != null && fresh(sequence.data) && sequence.data.Length == size &&
                               forall k | 0 <= k < size :: sequence.data[k] == Cleared
    ensures !ok && sequence != null ==> unchanged(sequence)
  {
    if sequence == null {
      return false;
    }
    var data: array?<U16Str> := null;
    if size > 0 {
      var granted := Allocate();
      if !granted {
        return false;
      }
      data := new U16Str[size](_ => Cleared);
      for i := 0 to size
        invariant unchanged(sequence)
        invariant forall k | 0 <= k < i :: data[k] == Cleared
      {
        var initialized := U16Init(data, i);
        // The source finalises the elements before `i` when an init fails;
        // that cannot happen.
        assert initialized;
      }
    }
    sequence.data, sequence.size, sequence.capacity := data, size, size;
    ok := true;
  }

  /**
   * rosidl_runtime_c__U16String__Sequence__fini: with a block, its
   * capacity must be positive (`aborted` otherwise); every element is
   * cleared and the sequence becomes NULL/0/0. Without one, size and
   * capacity must be 0.
   */
  method U16SequenceFini(sequence: U16StringSequence?) returns (aborted: bool)
    requires sequence != null ==> CapacityInBlock(sequence)
    modifies if sequence == null then {} else {sequence, sequence.data}
    ensures sequence == null ==> !aborted
    ensures sequence != null ==>
              (aborted <==> if old(sequence.data) != null then old(sequence.capacity) == 0
                            else old(sequence.size) != 0 || old(sequence.capacity) != 0)
    ensures sequence != null && !aborted ==>
              sequence.data == null && sequence.size == 0 && sequence.capacity == 0
    ensures sequence != null && !aborted && old(sequence.data) != null ==>
              forall k | 0 <= k < old(sequence.capacity) :: old(sequence.data)[k] == Cleared
  {
    if sequence == null {
      return false;
    }
    if sequence.data != null {
      if sequence.capacity == 0 {
        return true;
      }
      var block := sequence.data;
      for i := 0 to sequence.capacity
        invariant sequence.data == block && sequence.capacity == old(sequence.capacity)
        invariant forall k | 0 <= k < i :: block[k] == Cleared
      {
        U16Fini(block, i);
      }
      sequence.data, sequence.size, sequence.capacity := null, 0, 0;
    } else {
      if sequence.size != 0 || sequence.capacity != 0 {
        return true;
      }
    }
    aborted := false;
  }

  /**
   * The growing half of U16String__Sequence__copy: reallocate to `n`
   * elements and clear the new ones. Element init cannot fail, so the
   * source's rollback of new slots never runs.
   */
  method U16Reserve(output: U16StringSequence, n: SizeT) returns (ok: bool)
    requires Shaped(output) && output.capacity < n
    modifies output
    ensures Shaped(output) && output.size == old(output.size)
    ensures ok ==> output.capacity == n && output.data != null && output.data.Length == n
    ensures ok ==> forall k | 0 <= k < n ::
                     output.data[k] == if k < old(output.capacity) then old(output.data[k]) else Cleared
    ensures !ok ==> unchanged(output)
    ensures output.data != old(output.data) ==> fresh(output.data)
  {
    ghost var before := if output.data == null then [] else output.data[..];
    var granted := Allocate();
    if !granted {
      return false;
    }
    var grown := new U16Str[n](_ => Cleared);
    if output.data != null {
      var previous := output.data;
      forall k | 0 <= k < n && k < previous.Length {
        grown[k] := previous[k];
      }
    }
    output.data := grown;
    for i := output.capacity to n
      invariant output.data == grown && output.capacity == old(output.capacity) && output.size == old(output.size)
      invariant forall k | 0 <= k < output.capacity :: grown[k] == before[k]
      invariant forall k | output.capacity <= k < i :: grown[k] == Cleared
    {
      var initialized := U16Init(grown, i);
      assert initialized;
    }
    output.capacity := n;
    ok := true;
  }

  /**
   * rosidl_runtime_c__U16String__Sequence__copy: grow when the output's
   * capacity is below the input's size, set the size, and copy element by
   * element until one copy fails.
   */
  method U16SequenceCopy(input: U16StringSequence?, output: U16StringSequence?) returns (ok: bool)
    requires input != null ==> SourceReadable(input)
    requires output != null ==> Shaped(output)
    requires input != null && input == output ==> input.size <= input.capacity
    modifies if output == null then {} else {output, output.data}
    ensures input == null || output == null ==> !ok
    ensures output != null ==> Shaped(output)
    ensures ok ==> output.size == old(input.size) &&
                   output.capacity == Max(old(output.capacity), old(input.size))
    ensures ok && output.size > 0 ==> output.data != null && output.size <= output.data.Length
    ensures ok && output.size > 0 ==>
              forall k | 0 <= k < output.size ::
                output.data[k] == CopyResult(old(input.data[k]), output.data == old(input.data))
    ensures ok ==> forall k | old(input.size) <= k < old(output.capacity) :: output.data[k] == old(output.data[k])
    ensures !ok && input != null && output != null ==>
              (unchanged(output) && forall k | 0 <= k < old(output.capacity) :: output.data[k] == old(output.data[k])) ||
              (output.size == old(input.size) && output.capacity == Max(old(output.capacity), old(input.size)))
  {
    if input == null || output == null {
      return false;
    }
    ghost var src := Elements(input);
    if output.capacity < input.size {
      var reserved := U16Reserve(output, input.size);
      if !reserved {
        return false;
      }
    }
    ghost var same := input.data == output.data;
    output.size := input.size;
    var i := 0;
    while i < input.size
      invariant 0 <= i <= input.size == output.size == |src|
      invariant input.data == old(input.data) && input.size == old(input.size)
      invariant output.capacity == Max(old(output.capacity), old(input.size))
      invariant Shaped(output)
      invariant output.data == old(output.data) || fresh(output.data)
      invariant input.size > 0 ==> output.data != null && input.size <= output.data.Length
      invariant same <==> input.data == output.data
      invariant forall k | 0 <= k < i :: output.data[k] == CopyResult(src[k], same)
      invariant forall k | i <= k < input.size :: input.data[k] == src[k]
      invariant output.data != old(output.data) ==> old(output.capacity) < input.size
      invariant forall k | input.size <= k < old(output.capacity) :: output.data[k] == old(output.data[k])
    {
      var copied := U16Copy(input.data, i, output.data, i);
      if !copied {
        return false;
      }
      i := i + 1;
    }
    ok := true;
  }

  /** Corresponding elements of two sequences of equal size can be compared. */
  predicate Comparable(lhs: U16StringSequence, rhs: U16StringSequence)
    reads lhs, lhs.data, rhs, rhs.data
  {
    lhs.size == rhs.size && lhs.size > 0 ==>
      lhs.data != null && rhs.data != null && lhs.size <= lhs.data.Length && rhs.size <= rhs.data.Length &&
      forall k | 0 <= k < lhs.size ::
        lhs.data[k].size == rhs.data[k].size ==> Readable(lhs.data[k]) && Readable(rhs.data[k])
  }

  /**
   * rosidl_runtime_c__U16String__Sequence__are_equal: false on NULL or a
   * size mismatch, otherwise true exactly when every pair of elements
   * compares equal.
   */
  method U16SequenceAreEqual(lhs: U16StringSequence?, rhs: U16StringSequence?) returns (equal: bool)
    requires lhs != null && rhs != null ==> Comparable(lhs, rhs)
    ensures equal <==> lhs != null && rhs != null && lhs.size == rhs.size &&
                       forall k | 0 <= k < lhs.size :: U16Equal(lhs.data[k], rhs.data[k])
  {
    if lhs == null || rhs == null {
      return false;
    }
    if lhs.size != rhs.size {
      return false;
    }
    var i := 0;
    while i < lhs.size
      invariant 0 <= i <= lhs.size
      invariant forall k | 0 <= k < i :: U16Equal(lhs.data[k], rhs.data[k])
    {
      if !U16Equal(lhs.data[i], rhs.data[i]) {
        return false;
      }
      i := i + 1;
    }
    equal := true;
  }

  /** A sequence copy onto a distinct block compares equal to its source, element by element. */
  lemma CopiedSequenceIsEqual(src: seq<U16Str>, copy: seq<U16Str>)
    requires |src| == |copy|
    requires forall k | 0 <= k < |src| :: Readable(src[k]) && copy[k] == CopyResult(src[k], false)
    ensures forall k | 0 <= k < |src| :: Readable(copy[k]) && U16Equal(copy[k], src[k])
  {
    forall k | 0 <= k < |src|
      ensures Readable(copy[k]) && U16Equal(copy[k], src[k])
    {
      CopyResultEquality(src[k], false);
    }
  }
}
