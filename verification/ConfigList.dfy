/** The growable element block of a group, an array or a list. */
module ConfigList {

  const CHUNK_SIZE: nat := 16

  function RoundUp(n: nat): nat {
    (n + CHUNK_SIZE - 1) / CHUNK_SIZE * CHUNK_SIZE
  }

  lemma RoundUpFacts(n: nat)
    ensures n <= RoundUp(n) && (n % CHUNK_SIZE != 0 ==> n < RoundUp(n))
    ensures n > 0 ==> RoundUp(n - 1) <= RoundUp(n)
    ensures n % CHUNK_SIZE == 0 ==> RoundUp(n + 1) == n + CHUNK_SIZE
    ensures n % CHUNK_SIZE != 0 ==> RoundUp(n + 1) == RoundUp(n)
  {
  }

  /** `config_list_t`: an allocated block and the number of elements in use. */
  class ElementList {
    var elements: array<nat>
    var length: nat

    /** The block always has room up to the next multiple of the chunk size, also
        after removals and after a reallocation that shrank it. */
    ghost predicate Valid()
      reads this
    {
      length <= RoundUp(length) <= elements.Length
    }

    ghost function Contents(): (r: seq<nat>)
      requires Valid()
      reads this, elements
      ensures |r| == length
    {
      elements[..length]
    }

    constructor ()
      ensures Valid() && Contents() == [] && fresh(elements)
    {
      elements := new nat[0];
      length := 0;
    }

    /** `realloc`: a new block with the old contents, as far as they fit. */
    method Reallocate(size: nat)
      requires length <= size
      requires length <= elements.Length
      modifies this`elements
      ensures fresh(elements) && elements.Length == size && length == old(length)
      ensures elements[..length] == old(elements[..length])
    {
      var block := new nat[size];
      var kept := if elements.Length < size then elements.Length else size;
      for i := 0 to kept
        invariant length <= kept <= elements.Length && kept <= block.Length
        invariant elements == old(elements) && block[..i] == elements[..i]
        invariant forall k | 0 <= k < elements.Length :: elements[k] == old(elements[k])
      {
        block[i] := elements[i];
      }
      assert block[..length] == block[..kept][..length] && elements[..length] == elements[..kept][..length];
      elements := block;
    }

    /** `__config_list_add` */
    method Add(setting: nat)
      requires Valid()
      modifies this, elements
      ensures Valid() && Contents() == old(Contents()) + [setting]
      ensures elements == old(elements) || fresh(elements)
    {
      RoundUpFacts(length);
      if length % CHUNK_SIZE == 0 {
        Reallocate(length + CHUNK_SIZE);
      }
      elements[length] := setting;
      length := length + 1;
    }

    /** `__config_list_remove` */
    method Remove(idx: nat) returns (removed: nat)
      requires Valid() && idx < length
      modifies this`length, elements
      ensures Valid() && removed == old(Contents()[idx])
      ensures Contents() == old(Contents()[..idx] + Contents()[idx + 1..])
      ensures elements == old(elements)
    {
      removed := elements[idx];
      ghost var all := elements[..length];
      for i := idx to length - 1
        invariant length == old(length) <= elements.Length && idx <= i <= length - 1
        invariant elements[..i] == all[..idx] + all[idx + 1..i + 1]
        invariant elements[i..length] == all[i..]
      {
        assert elements[i + 1] == elements[i..length][1] == all[i + 1];
        elements[i] := elements[i + 1];
      }
      RoundUpFacts(length);
      length := length - 1;
      assert all[idx + 1..length + 1] == all[idx + 1..];
    }
  }
}
