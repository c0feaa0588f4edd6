/**
 * rosidl_runtime_c__String and rosidl_runtime_c__String__Sequence as the
 * generated fuzz drivers re-implement them: init, fini, copy, assignn and
 * are_equal on strings, init, fini, copy and are_equal on sequences, and
 * the driver helper that splits fuzz input into a sequence of strings.
 *
 * A `rosidl_runtime_c__String *` is modelled as a slot of an array of
 * string structs (`a`, `i`); a null array is the NULL pointer. A string on
 * its own is the only slot of a one-element array, an element of a
 * sequence is `&sequence->data[i]`. The character buffer a struct points
 * to is a `Buffer<Byte>` value.
 */
module RosidlString {
  import opened Memory

  /** The struct: `data` (NULL or a block), `size`, `capacity`. */
  datatype Str = Str(data: Buffer<Byte>, size: SizeT, capacity: SizeT)

  /** What a successful String__init produces: "\0", size 0, capacity 1. */
  const Empty: Str := Str(Block([0]), 0, 1)

  /** What String__fini leaves behind, and what zeroed memory holds. */
  const Finalized: Str := Str(Null, 0, 0)

  /** The checks String__fini makes before it frees (otherwise it exits). */
  predicate FiniConsistent(s: Str)
  {
    if s.data.Block? then s.capacity > 0 else s.size == 0 && s.capacity == 0
  }

  /** The first `size` characters can be read (memcmp's precondition). */
  predicate Readable(s: Str)
  {
    if s.data.Block? then s.size <= |s.data.elems| else s.size == 0
  }

  /** The source of String__copy: when its buffer is there, it has `size` bytes. */
  predicate CopyReadable(s: Str)
  {
    s.data.Block? ==> s.size <= |s.data.elems|
  }

  /** Writes below `capacity` stay inside the buffer. */
  predicate Writable(s: Str)
  {
    s.data.Block? ==> s.capacity <= |s.data.elems|
  }

  /** A NUL-terminated string with room for its terminator. */
  predicate Valid(s: Str)
  {
    s.data.Block? && s.size < s.capacity <= |s.data.elems| && s.data.elems[s.size] == 0
  }

  /** The characters of a readable string. */
  function Contents(s: Str): (r: seq<Byte>)
    requires Readable(s)
    ensures |r| == s.size
  {
    if s.data.Block? then s.data.elems[..s.size] else []
  }

  function Elems(s: Str): seq<Byte>
  {
    if s.data.Block? then s.data.elems else []
  }

  function Max(a: nat, b: nat): nat
  {
    if a < b then b else a
  }

  /** The block `realloc` returns: the old prefix, then fresh (zeroed) bytes. */
  function Realloc(elems: seq<Byte>, n: nat): (r: seq<Byte>)
    ensures |r| == n
    ensures forall k | 0 <= k < n && k < |elems| :: r[k] == elems[k]
  {
    if n <= |elems| then elems[..n] else elems + seq(n - |elems|, _ => 0)
  }

  // ---------------------------------------------------------------------
  // String__init, String__fini

  /** rosidl_runtime_c__String__init: allocate one byte and store "\0". */
  method StringInit(a: array?<Str>, i: nat) returns (ok: bool)
    requires a != null ==> i < a.Length
    modifies a
    ensures a == null ==> !ok
    ensures a != null && ok ==> a[i] == Empty
    ensures a != null && !ok ==> a[i] == old(a[i]).(data := Null)
    ensures a != null ==> forall k | 0 <= k < a.Length && k != i :: a[k] == old(a[k])
  {
    if a == null {
      return false;
    }
    var granted := Allocate();
    if !granted {
      a[i] := a[i].(data := Null);
      return false;
    }
    a[i] := Empty;
    ok := true;
  }

  /**
   * rosidl_runtime_c__String__fini. The process exits (`exited`) when the
   * struct is inconsistent; otherwise the buffer is freed.
   */
  method StringFini(a: array?<Str>, i: nat) returns (exited: bool)
    requires a != null ==> i < a.Length
    modifies a
    ensures a == null ==> !exited
    ensures a != null ==> (exited <==> !FiniConsistent(old(a[i])))
    ensures a != null && !exited ==> a[i] == Finalized
    ensures a != null && exited ==> a[i] == old(a[i])
    ensures a != null ==> forall k | 0 <= k < a.Length && k != i :: a[k] == old(a[k])
  {
    if a == null {
      return false;
    }
    var s := a[i];
    if s.data.Block? {
      if s.capacity <= 0 {
        return true;
      }
      a[i] := Finalized;
    } else {
      if s.size != 0 {
        return true;
      }
      if s.capacity != 0 {
        return true;
      }
    }
    exited := false;
  }

  // ---------------------------------------------------------------------
  // String__copy

  /**
   * The capacity test of String__copy as written: `input->size + 1` in
   * `size_t` arithmetic, which wraps to 0 when the size is SIZE_MAX.
   */
  function RequiredCapacityAsWritten(size: SizeT): (r: SizeT)
    ensures size < SIZE_MAX ==> r == size + 1
  {
    (size + 1) % (SIZE_MAX + 1)
  }

  /**
   * With the wrap-around, an input of size SIZE_MAX (possible with a NULL
   * buffer, which String__copy explicitly tolerates) passes the capacity
   * test against any output, so the terminator is written at index
   * SIZE_MAX, beyond every capacity the output can have.
   */
  lemma CopyTerminatorOutOfBoundsAsWritten(output: Str)
    ensures var input := Str(Null, SIZE_MAX, 0);
            !(output.capacity < RequiredCapacityAsWritten(input.size)) &&
            input.size >= output.capacity
  {
  }

  /**
   * The string a successful String__copy leaves in `output`: initialise it
   * if its buffer is NULL, grow it to `size + 1` if its capacity is too
   * small, copy the characters (when the input has a buffer) and store the
   * terminator.
   */
  function Copied(input: Str, output: Str): (r: Str)
    requires CopyReadable(input) && Writable(output) && input.size < SIZE_MAX
  {
    var base := if output.data.Null? then Empty else output;
    var required := input.size + 1;
    var grown := if base.capacity < required
                 then Str(Block(Realloc(base.data.elems, required)), base.size, required)
                 else base;
    var bytes := grown.data.elems;
    var body := if input.size > 0 && input.data.Block?
                then input.data.elems[..input.size] + bytes[input.size..]
                else bytes;
    Str(Block(body[input.size := 0]), input.size, grown.capacity)
  }

  /**
   * The result of String__copy when input and output may be one struct:
   * copying a NULL-buffer struct onto itself reads it after its own
   * initialisation, which leaves the empty string.
   */
  function CopyResult(input: Str, output: Str, same: bool): Str
    requires CopyReadable(input) && Writable(output) && input.size < SIZE_MAX
  {
    if same && output.data.Null? then Empty else Copied(input, output)
  }

  /** The terminator of a copy is inside its capacity (the corrected guard). */
  lemma CopiedTerminatorInBounds(input: Str, output: Str)
    requires CopyReadable(input) && Writable(output) && input.size < SIZE_MAX
    ensures Valid(Copied(input, output))
    ensures Copied(input, output).size == input.size
    ensures Copied(input, output).capacity == Max(if output.data.Null? then 1 else output.capacity, input.size + 1)
  {
  }

  /** A copy has the characters of its source. */
  lemma CopiedContents(input: Str, output: Str)
    requires CopyReadable(input) && Writable(output) && input.size < SIZE_MAX
    requires input.data.Block?
    ensures Readable(Copied(input, output))
    ensures Contents(Copied(input, output)) == Contents(input)
  {
    var r := Copied(input, output);
    if input.size > 0 {
      assert r.data.elems[..input.size] == input.data.elems[..input.size];
    }
  }

  /**
   * rosidl_runtime_c__String__copy. Both pointers may point to one struct.
   * It refuses an input of size SIZE_MAX, whose terminator would not fit
   * (see CopyTerminatorOutOfBoundsAsWritten).
   */
  method StringCopy(ia: array?<Str>, ii: nat, oa: array?<Str>, oi: nat) returns (ok: bool)
    requires ia != null ==> ii < ia.Length && CopyReadable(ia[ii])
    requires oa != null ==> oi < oa.Length && Writable(oa[oi])
    modifies oa
    ensures ia == null || oa == null ==> !ok
    ensures oa != null && (ia == null || old(ia[ii]).size == SIZE_MAX) ==> !ok && oa[oi] == old(oa[oi])
    ensures ok ==> oa[oi] == CopyResult(old(ia[ii]), old(oa[oi]), ia == oa && ii == oi)
    ensures oa != null && !ok ==> oa[oi] == old(oa[oi]) || (old(oa[oi]).data.Null? && oa[oi] == Empty)
    ensures oa != null ==> Writable(oa[oi])
    ensures oa != null ==> forall k | 0 <= k < oa.Length && k != oi :: oa[k] == old(oa[k])
  {
    if ia == null || oa == null {
      return false;
    }
    if ia[ii].size == SIZE_MAX {
      return false;
    }
    if oa[oi].data.Null? {
      var initialized := StringInit(oa, oi);
      if !initialized {
        return false;
      }
    }
    var input := ia[ii];
    var required := input.size + 1;
    if oa[oi].capacity < required {
      var reallocated := Allocate();
      if !reallocated {
        return false;
      }
      var out := oa[oi];
      oa[oi] := Str(Block(Realloc(out.data.elems, required)), out.size, required);
    }
    var out := oa[oi];
    var bytes := out.data.elems;
    if input.size > 0 && input.data.Block? {
      bytes := input.data.elems[..input.size] + bytes[input.size..];
    }
    oa[oi] := Str(Block(bytes[input.size := 0]), input.size, out.capacity);
    ok := true;
  }

  // ---------------------------------------------------------------------
  // String__assignn

  /** What String__assignn stores: the `n` characters and a terminator. */
  function Assigned(value: seq<Byte>): (r: Str)
    requires |value| < SIZE_MAX
    ensures Valid(r) && r.size == |value| && r.capacity == |value| + 1
    ensures Contents(r) == value
  {
    Str(Block(value + [0]), |value|, |value| + 1)
  }

  /**
   * rosidl_runtime_c__String__assignn: reallocate to `n + 1` bytes and copy
   * `n` characters of `value`. A NULL string, a NULL value and
   * `n == SIZE_MAX` are refused; on any failure the string is unchanged.
   */
  method StringAssignn(a: array?<Str>, i: nat, value: Buffer<Byte>, n: SizeT) returns (ok: bool)
    requires a != null ==> i < a.Length
    requires value.Block? ==> n <= |value.elems|
    modifies a
    ensures a == null || value.Null? || n == SIZE_MAX ==> !ok
    ensures ok ==> value.Block? && n < SIZE_MAX && a[i] == Assigned(value.elems[..n])
    ensures a != null && !ok ==> a[i] == old(a[i])
    ensures a != null ==> forall k | 0 <= k < a.Length && k != i :: a[k] == old(a[k])
  {
    if a == null {
      return false;
    }
    if value.Null? {
      return false;
    }
    if n == SIZE_MAX {
      return false;
    }
    var reallocated := Allocate();
    if !reallocated {
      return false;
    }
    a[i] := Str(Block(value.elems[..n] + [0]), n, n + 1);
    ok := true;
  }

  // ---------------------------------------------------------------------
  // String__are_equal

  /** Two structs compare equal: same size and `memcmp` over that size is 0. */
  predicate StrEqual(l: Str, r: Str)
    requires l.size == r.size ==> Readable(l) && Readable(r)
  {
    l.size == r.size && MemEqual(Elems(l), Elems(r), l.size)
  }

  /** String__are_equal compares exactly the characters. */
  lemma StrEqualIsSameContents(l: Str, r: Str)
    requires Readable(l) && Readable(r)
    ensures StrEqual(l, r) <==> Contents(l) == Contents(r)
  {
    if l.size == r.size {
      MemEqualIsPrefixEquality(Elems(l), Elems(r), l.size);
    }
  }

  /** rosidl_runtime_c__String__are_equal on two string pointers. */
  predicate StringAreEqual(la: array?<Str>, li: nat, ra: array?<Str>, ri: nat)
    requires la != null ==> li < la.Length
    requires ra != null ==> ri < ra.Length
    requires la != null && ra != null && la[li].size == ra[ri].size ==> Readable(la[li]) && Readable(ra[ri])
    reads la, ra
  {
    la != null && ra != null && StrEqual(la[li], ra[ri])
  }

  /** are_equal is false on a NULL pointer and on a size mismatch, and otherwise compares the characters. */
  lemma StringAreEqualMeaning(la: array<Str>, li: nat, ra: array<Str>, ri: nat)
    requires li < la.Length && ri < ra.Length
    requires Readable(la[li]) && Readable(ra[ri])
    ensures !StringAreEqual(null, li, ra, ri) && !StringAreEqual(la, li, null, ri)
    ensures StringAreEqual(la, li, ra, ri) <==>
              la[li].size == ra[ri].size && Contents(la[li]) == Contents(ra[ri])
  {
    StrEqualIsSameContents(la[li], ra[ri]);
  }

  /** A successful copy compares equal to its source. */
  lemma CopyResultEqualsSource(input: Str, output: Str, same: bool)
    requires Readable(input) && Writable(output) && input.size < SIZE_MAX
    requires same ==> input == output
    ensures Readable(CopyResult(input, output, same))
    ensures StrEqual(CopyResult(input, output, same), input)
  {
    var r := CopyResult(input, output, same);
    if input.data.Block? {
      CopiedContents(input, output);
    } else {
      CopiedTerminatorInBounds(input, output);
    }
    StrEqualIsSameContents(r, input);
  }

  /** Two strings stored the same characters compare equal. */
  lemma AssignedAreEqual(value: seq<Byte>)
    requires |value| < SIZE_MAX
    ensures StrEqual(Assigned(value), Assigned(value))
  {
    StrEqualIsSameContents(Assigned(value), Assigned(value));
  }

  // ---------------------------------------------------------------------
  // String__Sequence

  /** rosidl_runtime_c__String__Sequence. */
  class StringSequence {
    var data: array?<Str>
    var size: SizeT
    var capacity: SizeT

    /** A zero-initialised struct. */
    constructor Zeroed()
      ensures data == null && size == 0 && capacity == 0
    {
      data, size, capacity := null, 0, 0;
    }
  }

  /** `capacity` elements are there to be written (and read). */
  predicate Shaped(s: StringSequence)
    reads s
  {
    (s.data == null ==> s.capacity == 0) &&
    (s.data != null ==> s.capacity <= s.data.Length)
  }

  /**
   * A block, when there is one, holds `capacity` elements. This is all
   * Sequence__fini needs: it checks the other combinations itself.
   */
  predicate CapacityInBlock(s: StringSequence)
    reads s
  {
    s.data != null ==> s.capacity <= s.data.Length
  }

  /** What Sequence__copy needs of its output: every slot within capacity is writable. */
  predicate TargetWritable(s: StringSequence)
    reads s, s.data
  {
    Shaped(s) && forall k | 0 <= k < s.capacity :: Writable(s.data[k])
  }

  /** What Sequence__copy needs of its input: `size` elements, each with its characters. */
  predicate SourceReadable(s: StringSequence)
    reads s, s.data
  {
    s.size > 0 ==> s.data != null && s.size <= s.data.Length &&
                   forall k | 0 <= k < s.size :: CopyReadable(s.data[k])
  }

  /** The sequence's elements, when it has them. */
  function Elements(s: StringSequence): (r: seq<Str>)
    requires SourceReadable(s)
    reads s, s.data
    ensures |r| == s.size
  {
    if s.size == 0 then [] else s.data[..s.size]
  }

  /** Sequence__fini's assertions fail, or one of its element finis exits. */
  predicate FiniAborts(s: StringSequence)
    requires CapacityInBlock(s)
    reads s, s.data
  {
    if s.data != null then
      s.capacity == 0 || exists k | 0 <= k < s.capacity :: !FiniConsistent(s.data[k])
    else
      s.size != 0 || s.capacity != 0
  }

  /**
   * rosidl_runtime_c__String__Sequence__init: `size` initialised strings in
   * a zeroed block (NULL when `size` is 0). If an element fails to
   * initialise, the ones before it are finalised, the block is freed
   * (`released` is its final content: nothing left allocated) and the
   * sequence is not touched.
   */
  method SequenceInit(sequence: StringSequence?, size: SizeT) returns (ok: bool, ghost released: seq<Str>)
    modifies sequence
    ensures sequence == null ==> !ok
    ensures ok ==> sequence != null && sequence.size == size && sequence.capacity == size
    ensures ok && size == 0 ==> sequence.data == null
    ensures ok && size > 0 ==> sequence.data != null && fresh(sequence.data) && sequence.data.Length == size &&
                               forall k | 0 <= k < size :: sequence.data[k] == Empty
    ensures !ok && sequence != null ==> unchanged(sequence)
    ensures !ok ==> forall k | 0 <= k < |released| :: released[k] == Finalized
  {
    released := [];
    if sequence == null {
      return false, released;
    }
    var data: array?<Str> := null;
    if size > 0 {
      var granted := Allocate();
      if !granted {
        return false, released;
      }
      data := new Str[size](_ => Finalized);
      var i := 0;
      while i < size
        invariant 0 <= i <= size
        invariant unchanged(sequence)
        invariant forall k | 0 <= k < i :: data[k] == Empty
        invariant forall k | i <= k < size :: data[k] == Finalized
      {
        var initialized := StringInit(data, i);
        if !initialized {
          var j := i;
          while j > 0
            invariant 0 <= j <= i
            invariant unchanged(sequence)
            invariant forall k | 0 <= k < j :: data[k] == Empty
            invariant forall k | j <= k < size :: data[k] == Finalized
          {
            j := j - 1;
            var exited := StringFini(data, j);
            assert !exited;
          }
          released := data[..];
          return false, released;
        }
        i := i + 1;
      }
    }
    sequence.data, sequence.size, sequence.capacity := data, size, size;
    ok := true;
  }

  /**
   * rosidl_runtime_c__String__Sequence__fini: finalise all `capacity`
   * elements and free the block. `aborted` when an assertion fails or an
   * element fini exits.
   */
  method SequenceFini(sequence: StringSequence?) returns (aborted: bool)
    requires sequence != null ==> CapacityInBlock(sequence)
    modifies if sequence == null then {} else {sequence, sequence.data}
    ensures sequence == null ==> !aborted
    ensures sequence != null ==> (aborted <==> old(FiniAborts(sequence)))
    ensures sequence != null && !aborted ==>
              sequence.data == null && sequence.size == 0 && sequence.capacity == 0
  {
    if sequence == null {
      return false;
    }
    if sequence.data != null {
      if sequence.capacity == 0 {
        return true;
      }
      var i := 0;
      while i < sequence.capacity
        invariant 0 <= i <= sequence.capacity
        invariant sequence.data == old(sequence.data) && sequence.capacity == old(sequence.capacity)
        invariant forall k | 0 <= k < i :: FiniConsistent(old(sequence.data[k]))
        invariant forall k | i <= k < sequence.data.Length :: sequence.data[k] == old(sequence.data[k])
      {
        var exited := StringFini(sequence.data, i);
        if exited {
          return true;
        }
        i := i + 1;
      }
      sequence.data, sequence.size, sequence.capacity := null, 0, 0;
    } else {
      if sequence.size != 0 || sequence.capacity != 0 {
        return true;
      }
    }
    aborted := false;
  }

  /**
   * The growing half of Sequence__copy: reallocate the block to `n`
   * elements and initialise the new slots. On failure the slots below the
   * old capacity, the size and the capacity are untouched (and any new
   * slot initialised so far is finalised again).
   */
  method Reserve(output: StringSequence, n: SizeT) returns (ok: bool)
    requires TargetWritable(output) && output.capacity < n
    modifies output
    ensures TargetWritable(output) && output.size == old(output.size)
    ensures ok ==> output.capacity == n && output.data != null && output.data.Length == n
    ensures ok ==> forall k | 0 <= k < n ::
                     output.data[k] == if k < old(output.capacity) then old(output.data[k]) else Empty
    ensures !ok ==> output.capacity == old(output.capacity)
    ensures !ok ==> forall k | 0 <= k < old(output.capacity) :: output.data[k] == old(output.data[k])
    ensures output.data != old(output.data) ==> fresh(output.data)
  {
    ghost var before := if output.data == null then [] else output.data[..];
    var granted := Allocate();
    if !granted {
      return false;
    }
    var grown := new Str[n](_ => Finalized);
    if output.data != null {
      var previous := output.data;
      forall k | 0 <= k < n && k < previous.Length {
        grown[k] := previous[k];
      }
    }
    output.data := grown;
    var i := output.capacity;
    while i < n
      invariant output.capacity <= i <= n
      invariant output.data == grown && output.capacity == old(output.capacity) && output.size == old(output.size)
      invariant forall k | 0 <= k < output.capacity :: grown[k] == before[k]
      invariant forall k | output.capacity <= k < i :: grown[k] == Empty
    {
      var initialized := StringInit(grown, i);
      if !initialized {
        var j := i;
        while j > output.capacity
          invariant output.capacity <= j <= i
          invariant output.data == grown && output.capacity == old(output.capacity) && output.size == old(output.size)
          invariant forall k | 0 <= k < output.capacity :: grown[k] == before[k]
        {
          j := j - 1;
          var exited := StringFini(grown, j);
        }
        return false;
      }
      i := i + 1;
    }
    output.capacity := n;
    ok := true;
  }

  /**
   * The element loop of Sequence__copy: copy the first `n` elements of `ia`
   * into `oa` (possibly the same array), stopping at the first failure.
   */
  method CopyElements(ia: array<Str>, oa: array<Str>, n: nat, capacity: nat, ghost src: seq<Str>, ghost pre: seq<Str>)
    returns (ok: bool)
    requires n <= ia.Length && n <= capacity <= oa.Length && |src| == n && pre == oa[..]
    requires forall k | 0 <= k < n :: ia[k] == src[k] && CopyReadable(src[k])
    requires forall k | 0 <= k < capacity :: Writable(oa[k])
    requires ia == oa ==> forall k | 0 <= k < n :: pre[k] == src[k]
    modifies oa
    ensures forall k | 0 <= k < capacity :: Writable(oa[k])
    ensures ok ==> forall k | 0 <= k < n :: src[k].size < SIZE_MAX && oa[k] == CopyResult(src[k], pre[k], ia == oa)
    ensures ok ==> forall k | n <= k < oa.Length :: oa[k] == pre[k]
  {
    var i := 0;
    while i < n
      invariant 0 <= i <= n
      invariant forall k | 0 <= k < capacity :: Writable(oa[k])
      invariant forall k | 0 <= k < i :: src[k].size < SIZE_MAX && oa[k] == CopyResult(src[k], pre[k], ia == oa)
      invariant forall k | i <= k < oa.Length :: oa[k] == pre[k]
      invariant forall k | i <= k < n :: ia[k] == src[k]
    {
      var copied := StringCopy(ia, i, oa, i);
      if !copied {
        return false;
      }
      i := i + 1;
    }
    ok := true;
  }

  /**
   * rosidl_runtime_c__String__Sequence__copy: grow the output only when its
   * capacity is below the input's size, set the size, then copy element by
   * element, stopping at the first element copy that fails.
   */
  method SequenceCopy(input: StringSequence?, output: StringSequence?) returns (ok: bool)
    requires input != null ==> SourceReadable(input)
    requires output != null ==> TargetWritable(output)
    requires input != null && input == output ==> input.size <= input.capacity
    modifies if output == null then {} else {output, output.data}
    ensures input == null || output == null ==> !ok
    ensures output != null ==> TargetWritable(output)
    ensures ok ==> output.size == old(input.size) &&
                   output.capacity == Max(old(output.capacity), old(input.size))
    ensures ok && output.size > 0 ==> output.data != null && output.size <= output.data.Length
    ensures ok && output.size > 0 ==>
              forall k | 0 <= k < output.size ::
                old(Readable(input.data[k])) ==> Readable(output.data[k]) && StrEqual(output.data[k], old(input.data[k]))
    ensures ok ==> forall k | old(input.size) <= k < old(output.capacity) :: output.data[k] == old(output.data[k])
    ensures !ok && input != null && output != null ==>
              (output.size == old(output.size) && output.capacity == old(output.capacity) &&
               forall k | 0 <= k < old(output.capacity) :: output.data[k] == old(output.data[k]))
              || (output.size == old(input.size) && output.capacity == Max(old(output.capacity), old(input.size)))
  {
    if input == null || output == null {
      return false;
    }
    ghost var src := Elements(input);
    if output.capacity < input.size {
      var reserved := Reserve(output, input.size);
      if !reserved {
        return false;
      }
    }
    assert input.data == old(input.data) && input.size == old(input.size);
    assert output.data != old(output.data) ==> old(output.capacity) < input.size;
    ghost var same := input.data == output.data;
    ghost var pre := if output.data == null then [] else output.data[..];
    output.size := input.size;
    if input.size > 0 {
      var copied := CopyElements(input.data, output.data, input.size, output.capacity, src, pre);
      if !copied {
        return false;
      }
    }
    forall k | 0 <= k < output.size && Readable(src[k])
      ensures Readable(output.data[k]) && StrEqual(output.data[k], src[k])
    {
      CopyResultEqualsSource(src[k], pre[k], same);
    }
    ok := true;
  }

  /** Element `k` of two sequences can be compared. */
  predicate Comparable(lhs: StringSequence, rhs: StringSequence)
    reads lhs, lhs.data, rhs, rhs.data
  {
    lhs.size == rhs.size && lhs.size > 0 ==>
      lhs.data != null && rhs.data != null && lhs.size <= lhs.data.Length && rhs.size <= rhs.data.Length &&
      forall k | 0 <= k < lhs.size ::
        lhs.data[k].size == rhs.data[k].size ==> Readable(lhs.data[k]) && Readable(rhs.data[k])
  }

  /**
   * rosidl_runtime_c__String__Sequence__are_equal: false on a NULL pointer
   * or a size mismatch, otherwise true exactly when every pair of elements
   * compares equal (the loop stops at the first pair that does not).
   */
  method SequenceAreEqual(lhs: StringSequence?, rhs: StringSequence?) returns (equal: bool)
    requires lhs != null && rhs != null ==> Comparable(lhs, rhs)
    ensures equal <==> lhs != null && rhs != null && lhs.size == rhs.size &&
                       forall k | 0 <= k < lhs.size :: StrEqual(lhs.data[k], rhs.data[k])
  {
    if lhs == null || rhs == null {
      return false;
    }
    if lhs.size != rhs.size {
      return false;
    }
    var i := 0;
    while i < lhs.size
      invariant 0 <= i <= lhs.size
      invariant forall k | 0 <= k < i :: StrEqual(lhs.data[k], rhs.data[k])
    {
      if !StrEqual(lhs.data[i], rhs.data[i]) {
        return false;
      }
      i := i + 1;
    }
    equal := true;
  }

  // ---------------------------------------------------------------------
  // create_string_sequence_from_fuzz

  /** The bytes `m` pieces of `per` bytes take up together: `per * m`. */
  function Span(per: nat, m: nat): nat
  {
    if m == 0 then 0 else Span(per, m - 1) + per
  }

  lemma {:induction false} SpanIsProduct(per: nat, m: nat)
    ensures Span(per, m) == per * m
  {
    if m > 0 {
      SpanIsProduct(per, m - 1);
      assert per * m == per * (m - 1) + per;
    }
  }

  /**
   * How the helper splits fuzz bytes among `count` strings: every string
   * but the last gets `per` bytes, the last gets what remains.
   */
  function Distribute(d: seq<Byte>, count: nat, per: nat): (r: seq<seq<Byte>>)
    requires count >= 1 && Span(per, count - 1) <= |d|
    ensures |r| == count
    decreases count
  {
    if count == 1 then [d]
    else
      assert Span(per, count - 1) == Span(per, count - 2) + per;
      [d[..per]] + Distribute(d[per..], count - 1, per)
  }

  function Flatten(parts: seq<seq<Byte>>): seq<Byte>
  {
    if parts == [] then [] else parts[0] + Flatten(parts[1..])
  }

  /** Nothing is lost or duplicated: the pieces put back together are the input. */
  lemma {:induction false} DistributeCoversInput(d: seq<Byte>, count: nat, per: nat)
    requires count >= 1 && Span(per, count - 1) <= |d|
    ensures Flatten(Distribute(d, count, per)) == d
    decreases count
  {
    if count > 1 {
      assert Span(per, count - 1) == Span(per, count - 2) + per;
      DistributeCoversInput(d[per..], count - 1, per);
      assert Distribute(d, count, per)[1..] == Distribute(d[per..], count - 1, per);
    }
  }

  /** The first `count - 1` pieces have `per` bytes, the last has the rest. */
  lemma {:induction false} DistributeLengths(d: seq<Byte>, count: nat, per: nat, k: nat)
    requires count >= 1 && Span(per, count - 1) <= |d| && k < count
    ensures k < count - 1 ==> |Distribute(d, count, per)[k]| == per
    ensures k == count - 1 ==> |Distribute(d, count, per)[k]| == |d| - Span(per, count - 1)
    decreases count
  {
    if count > 1 {
      assert Span(per, count - 1) == Span(per, count - 2) + per;
      if k > 0 {
        DistributeLengths(d[per..], count - 1, per, k - 1);
      }
    }
  }

  /** `size / n` bytes for each of `n` strings fit in `size` bytes, and each gets at least one. */
  lemma SplitBounds(size: nat, n: nat)
    requires 1 <= n <= size
    ensures 1 <= size / n && Span(size / n, n) <= size
  {
    assert size == (size / n) * n + size % n;
    SpanIsProduct(size / n, n);
  }

  /** Finalise the first `n` slots; all of them are consistent, so nothing exits. */
  method FiniAll(a: array<Str>, n: nat)
    requires n <= a.Length
    requires forall k | 0 <= k < n :: FiniConsistent(a[k])
    modifies a
    ensures forall k | 0 <= k < n :: a[k] == Finalized
    ensures forall k | n <= k < a.Length :: a[k] == old(a[k])
  {
    var j := 0;
    while j < n
      invariant 0 <= j <= n
      invariant forall k | 0 <= k < j :: a[k] == Finalized
      invariant forall k | j <= k < a.Length :: a[k] == old(a[k])
    {
      var exited := StringFini(a, j);
      assert !exited;
      j := j + 1;
    }
  }

  /**
   * The first loop of create_string_sequence_from_fuzz: initialise every
   * element; when one fails, finalise those before it.
   */
  method InitStrings(strings: array<Str>) returns (ok: bool)
    modifies strings
    ensures ok ==> forall k | 0 <= k < strings.Length :: strings[k] == Empty
  {
    for i := 0 to strings.Length
      invariant forall k | 0 <= k < i :: strings[k] == Empty
    {
      var initialized := StringInit(strings, i);
      if !initialized {
        FiniAll(strings, i);
        return false;
      }
    }
    ok := true;
  }

  /** One step of the split: the first piece, and the split of what follows it. */
  lemma DistributeStep(d: seq<Byte>, count: nat, per: nat)
    requires count >= 1 && per >= 1 && Span(per, count) <= |d|
    ensures Span(per, count - 1) <= |d|
    ensures var len := if count > 1 then per else |d|;
            0 < len <= |d| && Distribute(d, count, per)[0] == d[..len]
    ensures count > 1 ==> Span(per, count - 1) <= |d| - per &&
                          Distribute(d, count, per)[1..] == Distribute(d[per..], count - 1, per)
  {
    assert Span(per, count) == Span(per, count - 1) + per;
  }

  /** Where piece `i` of the split starts and how it relates to the split of what remains. */
  lemma NextPiece(data: seq<Byte>, parts: seq<seq<Byte>>, n: nat, per: nat, i: nat, current: nat, remaining: nat)
    requires per >= 1 && i < n == |parts| && current + remaining == |data|
    requires Span(per, n - i) <= remaining
    requires Distribute(data[current..], n - i, per) == parts[i..]
    ensures var len := if i < n - 1 then per else remaining;
            0 < len <= remaining && parts[i] == data[current..current + len] &&
            (i < n - 1 ==> Span(per, n - i - 1) <= remaining - len &&
                           Distribute(data[current + len..], n - i - 1, per) == parts[i + 1..])
  {
    var rest := data[current..];
    DistributeStep(rest, n - i, per);
    var len := if i < n - 1 then per else remaining;
    assert parts[i] == parts[i..][0];
    if i < n - 1 {
      assert parts[i + 1..] == parts[i..][1..];
      assert rest[len..] == data[current + len..];
    }
  }

  /**
   * One iteration of the second loop: copy the piece into a temporary
   * buffer and assign it to element `i`; on failure finalise every element.
   */
  method AssignPiece(strings: array<Str>, i: nat, piece: seq<Byte>) returns (ok: bool)
    requires i < strings.Length && |piece| <= SIZE_MAX
    requires forall k | 0 <= k < strings.Length :: FiniConsistent(strings[k])
    modifies strings
    ensures ok ==> |piece| < SIZE_MAX && strings[i] == Assigned(piece)
    ensures ok ==> forall k | 0 <= k < strings.Length && k != i :: strings[k] == old(strings[k])
  {
    var tempGranted := Allocate();
    if !tempGranted {
      FiniAll(strings, strings.Length);
      return false;
    }
    var temp := Block(piece + [0]);
    var stored := StringAssignn(strings, i, temp, |piece|);
    if !stored {
      FiniAll(strings, strings.Length);
      return false;
    }
    assert temp.elems[..|piece|] == piece;
    ok := true;
  }

  /** The first `i` slots hold the first `i` pieces. */
  predicate FilledWith(a: seq<Str>, parts: seq<seq<Byte>>, i: nat)
    requires i <= |a| && i <= |parts|
  {
    forall k | 0 <= k < i :: |parts[k]| < SIZE_MAX && a[k] == Assigned(parts[k])
  }

  /** Every slot can be finalised without exiting. */
  predicate AllConsistent(a: seq<Str>)
  {
    forall k | 0 <= k < |a| :: FiniConsistent(a[k])
  }

  /** Assigning piece `i` to slot `i` extends the filled prefix and keeps every slot consistent. */
  lemma FillStep(a: seq<Str>, parts: seq<seq<Byte>>, i: nat)
    requires i < |a| && i < |parts| && |parts[i]| < SIZE_MAX
    requires FilledWith(a, parts, i) && AllConsistent(a)
    ensures FilledWith(a[i := Assigned(parts[i])], parts, i + 1)
    ensures AllConsistent(a[i := Assigned(parts[i])])
  {
  }

  /** The bytes from `current` on split into the pieces from `i` on. */
  predicate Pending(data: seq<Byte>, parts: seq<seq<Byte>>, per: nat, i: nat, current: nat)
    requires i < |parts| && current <= |data|
  {
    Span(per, |parts| - i) <= |data| - current &&
    Distribute(data[current..], |parts| - i, per) == parts[i..]
  }

  /** One iteration of the second loop, stated against the split of what remains. */
  method AssignNext(strings: array<Str>, data: seq<Byte>, ghost parts: seq<seq<Byte>>, per: nat,
                    i: nat, current: nat, remaining: nat)
    returns (ok: bool, len: nat)
    requires per >= 1 && i < strings.Length == |parts| && current + remaining == |data| <= SIZE_MAX
    requires Pending(data, parts, per, i, current)
    requires AllConsistent(strings[..])
    modifies strings
    ensures ok ==> len == (if i < strings.Length - 1 then per else remaining) && 0 < len <= remaining
    ensures ok ==> |parts[i]| < SIZE_MAX && strings[..] == old(strings[..])[i := Assigned(parts[i])]
    ensures ok && i < strings.Length - 1 ==> Pending(data, parts, per, i + 1, current + len)
  {
    var n := strings.Length;
    NextPiece(data, parts, n, per, i, current, remaining);
    len := if i < n - 1 then per else remaining;
    assert forall k | 0 <= k < n :: FiniConsistent(strings[k]) by {
      assert forall k | 0 <= k < n :: strings[k] == strings[..][k];
    }
    ok := AssignPiece(strings, i, data[current..current + len]);
    if ok {
      assert strings[..] == old(strings[..])[i := Assigned(parts[i])];
    }
  }

  /**
   * The second loop of create_string_sequence_from_fuzz: element `i` is
   * assigned the next `per` bytes (the last element: all that remain).
   * Every piece is non-empty and fits in what remains, so the source's
   * `string_len > 0` test always holds and its clamp never applies.
   */
  method AssignPieces(strings: array<Str>, data: seq<Byte>, per: nat) returns (ok: bool)
    requires strings.Length >= 1 && per >= 1 && Span(per, strings.Length) <= |data| <= SIZE_MAX
    requires forall k | 0 <= k < strings.Length :: strings[k] == Empty
    modifies strings
    ensures Span(per, strings.Length - 1) <= |data|
    ensures ok ==> forall k | 0 <= k < strings.Length ::
                     |Distribute(data, strings.Length, per)[k]| < SIZE_MAX &&
                     strings[k] == Assigned(Distribute(data, strings.Length, per)[k])
  {
    var n := strings.Length;
    DistributeStep(data, n, per);
    ghost var parts := Distribute(data, n, per);
    var current: nat := 0;
    var remaining: nat := |data|;
    assert AllConsistent(strings[..]);
    for i := 0 to n
      invariant current + remaining == |data|
      invariant i < n ==> Pending(data, parts, per, i, current)
      invariant FilledWith(strings[..], parts, i) && AllConsistent(strings[..])
    {
      ghost var before := strings[..];
      var stored, len := AssignNext(strings, data, parts, per, i, current, remaining);
      if !stored {
        return false;
      }
      FillStep(before, parts, i);
      current := current + len;
      remaining := remaining - len;
    }
    assert forall k | 0 <= k < n :: strings[k] == strings[..][k];
    ok := true;
  }

  /**
   * create_string_sequence_from_fuzz (deepseek-coder_15): NULL when
   * `num_strings` is 0 or exceeds `size`, or when an allocation fails;
   * otherwise a sequence of `num_strings` strings holding the pieces of
   * `Distribute`, which between them consume exactly `size` bytes
   * (DistributeCoversInput).
   */
  method CreateStringSequenceFromFuzz(data: seq<Byte>, size: SizeT, numStrings: SizeT)
    returns (r: StringSequence?)
    requires size <= |data|
    ensures numStrings == 0 || size < numStrings ==> r == null
    ensures r != null ==>
              fresh(r) && r.data != null && fresh(r.data) &&
              r.size == numStrings && r.capacity == numStrings && r.data.Length == numStrings &&
              numStrings >= 1 && Span(size / numStrings, numStrings - 1) <= size &&
              forall k | 0 <= k < numStrings ::
                |Distribute(data[..size], numStrings, size / numStrings)[k]| < SIZE_MAX &&
                r.data[k] == Assigned(Distribute(data[..size], numStrings, size / numStrings)[k])
  {
    if numStrings == 0 || size < numStrings {
      return null;
    }
    var headerGranted := Allocate();
    if !headerGranted {
      return null;
    }
    var blockGranted := Allocate();
    if !blockGranted {
      return null;
    }
    var strings := new Str[numStrings](_ => Finalized);
    var sequence := new StringSequence.Zeroed();
    sequence.data, sequence.size, sequence.capacity := strings, numStrings, numStrings;
    var initialized := InitStrings(strings);
    if !initialized {
      return null;
    }
    SplitBounds(size, numStrings);
    var filled := AssignPieces(strings, data[..size], size / numStrings);
    if !filled {
      return null;
    }
    r := sequence;
  }
}
