/** A growing array of strings with a null sentinel after the last one. */
module StringArrays {

  /** One `char*` of the raw array. */
  datatype Slot = Null | Text(chars: string)

  const NUL: char := '\0'

  /** The C string that copying at most `n` characters of `text` leaves. */
  function CString(text: string, n: nat): (s: string)
    ensures s <= text && '\0' !in s && |s| <= n
    ensures |s| == n || |s| == |text| || text[|s|] == '\0'
  {
    if n == 0 || text == "" || text[0] == NUL then "" else [text[0]] + CString(text[1..], n - 1)
  }

  /** The copy ends at position `i` if it runs out there, or meets a NUL, and meets none before. */
  lemma {:induction false} CStringEnds(text: string, n: nat, i: nat)
    requires i <= n && i <= |text| && NUL !in text[..i]
    requires i == n || (i < |text| && text[i] == NUL)
    ensures CString(text, n) == text[..i]
  {
    if i > 0 {
      assert text[0] == text[..i][0];
      assert text[..i][1..] == text[1..][..i - 1];
      CStringEnds(text[1..], n - 1, i - 1);
    }
  }

  // ---------- Growth over appends to a fresh array ----------

  function Grown(capacity: nat): nat {
    if capacity == 0 then 1 else 2 * capacity
  }

  /** The capacity after `n` appends to an array made with capacity `start`. */
  function CapacityAfter(start: nat, n: nat): nat {
    if n == 0 then start
    else if CapacityAfter(start, n - 1) == n - 1 then Grown(n - 1)
    else CapacityAfter(start, n - 1)
  }

  /** How many strings those appends moved to a new block; each growth moves all there are. */
  function CopiesAfter(start: nat, n: nat): nat {
    if n == 0 then 0
    else CopiesAfter(start, n - 1) + if CapacityAfter(start, n - 1) == n - 1 then n - 1 else 0
  }

  lemma {:induction false} CopiesFillCapacity(start: nat, n: nat)
    requires n > 0
    ensures var base := if start == 0 then 1 else start;
            && n <= CapacityAfter(start, n)
            && CopiesAfter(start, n) == CapacityAfter(start, n) - base
            && (CapacityAfter(start, n) == base || CapacityAfter(start, n) <= 2 * (n - 1))
  {
    if n > 1 {
      CopiesFillCapacity(start, n - 1);
    }
  }

  /** Amortised constant cost: `n` appends move fewer than `2n` strings. */
  lemma AppendsMoveFewStrings(start: nat, n: nat)
    requires n > 0
    ensures CopiesAfter(start, n) < 2 * n
  {
    CopiesFillCapacity(start, n);
  }

  // ---------- The array ----------

  class StringArray {
    var strings: array<Slot>
    var size: nat
    var capacity: nat
    /** The strings in the array, as values. */
    ghost var contents: seq<string>
    /** The capacity the array was made with. */
    ghost const start: nat
    /** How many strings reallocation has moved so far. */
    ghost var copied: nat

    ghost predicate Valid()
      reads this, strings
    {
      && strings.Length == capacity + 1
      && size == |contents| <= capacity
      && strings[size] == Null
      && forall i | 0 <= i < size :: strings[i] == Text(contents[i])
    }

    /** Nothing but appends since the array was made. */
    ghost predicate OnlyAppended()
      reads this
    {
      capacity == CapacityAfter(start, size) && copied == CopiesAfter(start, size)
    }

    constructor (capacity: nat)
      ensures Valid() && fresh(strings)
      ensures contents == [] && this.capacity == start == capacity && OnlyAppended()
      ensures size == 0 && strings.Length == capacity + 1 && strings[0] == Null
    {
      size, contents := 0, [];
      this.capacity := capacity;
      start := capacity;
      strings := new Slot[capacity + 1];
      copied := 0;
      new;
      strings[0] := Null;
    }

    /** Keeps the first strings, as many as the new capacity has room for. */
    method Resize(newCapacity: nat)
      requires Valid()
      modifies this, strings
      ensures Valid() && fresh(strings) && capacity == newCapacity
      ensures contents == if newCapacity < old(size) then old(contents)[..newCapacity] else old(contents)
      ensures size == if newCapacity < old(size) then newCapacity else old(size)
      ensures strings.Length == newCapacity + 1 && strings[size] == Null
      ensures forall i | 0 <= i < size :: strings[i] == old(strings[i])
      ensures copied == old(copied) + size
    {
      if newCapacity < size {
        size, contents := newCapacity, contents[..newCapacity];
      }
      capacity := newCapacity;
      Reallocate(newCapacity);
      strings[capacity] := Null;
    }

    /** realloc: a new block that starts like the old one; what does not fit is dropped. */
    method Reallocate(newCapacity: nat)
      modifies this`strings, this`copied
      ensures fresh(strings) && strings.Length == newCapacity + 1
      ensures forall i | 0 <= i < old(strings).Length && i <= newCapacity :: strings[i] == old(strings[i])
      ensures copied == old(copied) + size
    {
      var block := new Slot[newCapacity + 1];
      var i := 0;
      while i < strings.Length && i <= newCapacity
        modifies block
        invariant i <= strings.Length && i <= newCapacity + 1
        invariant forall j | 0 <= j < i :: block[j] == strings[j]
      {
        block[i] := strings[i];
        i := i + 1;
      }
      strings := block;
      copied := copied + size;
    }

    /** The copying loop: stops at a NUL or after `n` characters. */
    static method CopyText(text: string, n: nat) returns (copy: string)
      requires n <= |text| || NUL in text
      ensures copy == CString(text, n)
    {
      copy := "";
      var i := 0;
      while i < n && text[i] != NUL
        invariant i <= n && i <= |text| && copy == text[..i] && NUL !in copy
        invariant n <= |text| || NUL in text[i..]
      {
        copy := copy + [text[i]];
        i := i + 1;
      }
      CStringEnds(text, n, i);
    }

    /** Appends a copy of at most `n` characters of `text`, growing a full array first. */
    method AddString(text: string, n: nat)
      requires Valid()
      requires n <= |text| || NUL in text
      modifies this, strings
      ensures Valid() && (strings == old(strings) || fresh(strings))
      ensures contents == old(contents) + [CString(text, n)]
      ensures size == old(size) + 1 && size < strings.Length && strings[size] == Null
      ensures strings[old(size)] == Text(CString(text, n))
      ensures forall i | 0 <= i < old(size) :: strings[i] == old(strings[i])
      ensures capacity == if old(size) < old(capacity) then old(capacity)
                          else if old(capacity) == 0 then 1 else 2 * old(capacity)
      ensures copied == old(copied) + if old(size) == old(capacity) then old(size) else 0
      ensures old(OnlyAppended()) ==> OnlyAppended()
    {
      if size == capacity {
        Resize(if capacity != 0 then capacity * 2 else 1);
      }
      var copy := CopyText(text, n);
      strings[size] := Text(copy);
      size, contents := size + 1, contents + [copy];
      strings[size] := Null;
    }
  }
}
