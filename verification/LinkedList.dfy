/** The doubly linked list of DataStructures/linked_list.c. */
module LinkedLists {
  import opened Aodv

  class LinkedEntry {
    const data: u32
    var next: LinkedEntry?
    var prev: LinkedEntry?

    constructor (data: u32)
      ensures this.data == data && next == null && prev == null
    {
      this.data := data;
      next, prev := null, null;
    }
  }

  ghost predicate Distinct(entries: seq<LinkedEntry>) {
    forall i, j :: 0 <= i < j < |entries| ==> entries[i] != entries[j]
  }

  ghost function Data(entries: seq<LinkedEntry>): seq<u32> {
    seq(|entries|, i requires 0 <= i < |entries| => entries[i].data)
  }

  ghost function Without(entries: seq<LinkedEntry>, i: nat): seq<LinkedEntry>
    requires i < |entries|
  {
    entries[..i] + entries[i + 1..]
  }

  lemma WithoutIndex(entries: seq<LinkedEntry>, i: nat)
    requires i < |entries| && Distinct(entries)
    ensures |Without(entries, i)| == |entries| - 1
    ensures forall k :: 0 <= k < |entries| - 1 ==> Without(entries, i)[k] == entries[if k < i then k else k + 1]
    ensures Distinct(Without(entries, i))
    ensures entries[i] !in Without(entries, i)
    ensures Data(Without(entries, i)) == Data(entries)[..i] + Data(entries)[i + 1..]
  {
  }

  class LinkedList {
    var first: LinkedEntry?
    var last: LinkedEntry?
    /** The entries in list order. */
    ghost var entries: seq<LinkedEntry>

    ghost predicate Valid()
      reads this, entries
    {
      && Distinct(entries)
      && first == At(0)
      && last == At(|entries| - 1)
      && forall i :: 0 <= i < |entries| ==> LinkedAt(i)
    }

    /** The links of the i-th entry name its neighbours. */
    ghost predicate LinkedAt(i: nat)
      requires i < |entries|
      reads this, entries
    {
      entries[i].next == At(i + 1) && entries[i].prev == At(i - 1)
    }

    /** The i-th entry, or null past either end. */
    ghost function At(i: int): LinkedEntry?
      reads this
    {
      if 0 <= i < |entries| then entries[i] else null
    }

    ghost function Contents(): seq<u32>
      reads this
    {
      Data(entries)
    }

    constructor ()
      ensures Valid() && Contents() == [] && entries == []
    {
      first, last := null, null;
      entries := [];
    }

    method AddEntryToList(data: u32)
      requires Valid()
      modifies this, entries
      ensures Valid()
      ensures Contents() == old(Contents()) + [data]
      ensures |entries| == |old(entries)| + 1 && entries[..|old(entries)|] == old(entries)
      ensures fresh(entries[|old(entries)|])
    {
      ghost var n := |entries|;
      assert n > 0 ==> LinkedAt(n - 1);
      var newEntry := new LinkedEntry(data);
      if first == null {
        last := newEntry;
        first := newEntry;
      } else {
        last.next := newEntry;
        newEntry.prev := last;
        last := newEntry;
      }
      entries := entries + [newEntry];
      forall k | 0 <= k < |entries|
        ensures LinkedAt(k)
      {
        assert k < n ==> old(LinkedAt(k));
      }
    }

    /** Once the neighbours of the i-th entry point past it, the other entries form a list. */
    twostate lemma Unlinked(i: nat)
      requires old(Valid()) && i < |old(entries)|
      requires entries == Without(old(entries), i)
      requires first == (if i > 0 then old(first) else At(0))
      requires last == (if i < |entries| then old(last) else At(i - 1))
      requires forall e <- entries :: e.next == if e == At(i - 1) then At(i) else old(e.next)
      requires forall e <- entries :: e.prev == if e == At(i) then At(i - 1) else old(e.prev)
      ensures Valid()
    {
      WithoutIndex(old(entries), i);
      forall k | 0 <= k < |entries|
        ensures LinkedAt(k)
      {
        assert entries[k] in entries;
        assert old(LinkedAt(if k < i then k else k + 1));
      }
    }

    /** The original dereferences the first entry without a check, so the list is non-empty. */
    method RemoveEntryFromList(data: u32)
      requires Valid() && Contents() != []
      modifies this, entries
      ensures Valid()
      ensures Contents() == RemoveFirst(old(Contents()), data)
    {
      var testEntry := first;
      assert LinkedAt(0) && Contents()[0] == testEntry.data;
      if testEntry.data == data {
        entries := Without(entries, 0);
        WithoutIndex(old(entries), 0);
        if testEntry.next == null {
          last := null;
          first := null;
          return;
        }
        first := testEntry.next;
        assert first == entries[0];
        first.prev := null;
        Unlinked(0);
        return;
      }
      testEntry := testEntry.next;
      ghost var i := 1;
      while testEntry != null
        invariant 1 <= i <= |entries|
        invariant testEntry == At(i)
        invariant data !in Contents()[..i]
        decreases |entries| - i
      {
        assert LinkedAt(i) && LinkedAt(i - 1) && Contents()[i] == testEntry.data;
        if testEntry.data == data {
          assert i + 1 < |entries| ==> LinkedAt(i + 1);
          RemoveFirstAt(Contents(), data, i);
          WithoutIndex(entries, i);
          entries := Without(entries, i);
          if testEntry.next == null {
            last := testEntry.prev;
            last.next := null;
            Unlinked(i);
            return;
          }
          assert testEntry.next == entries[i] && testEntry.prev == entries[i - 1];
          testEntry.prev.next := testEntry.next;
          testEntry.next.prev := testEntry.prev;
          Unlinked(i);
          return;
        }
        testEntry := testEntry.next;
        i := i + 1;
      }
      RemoveFirstAbsent(Contents(), data);
    }

    method GetAllEntries() returns (all: array<u32>, size: nat)
      requires Valid()
      ensures fresh(all)
      ensures size == |Contents()| && all[..] == Contents()
    {
      var current := first;
      size := 0;
      while current != null
        invariant 0 <= size <= |entries| && current == At(size)
        decreases |entries| - size
      {
        assert LinkedAt(size);
        size := size + 1;
        current := current.next;
      }
      current := first;
      all := new u32[size];
      var index := 0;
      while current != null
        invariant 0 <= index <= size == |entries| && current == At(index)
        invariant forall k :: 0 <= k < index ==> all[k] == entries[k].data
        decreases size - index
      {
        assert LinkedAt(index);
        all[index] := current.data;
        current := current.next;
        index := index + 1;
      }
    }

    method IsInList(data: u32) returns (found: bool)
      requires Valid()
      ensures found <==> data in Contents()
    {
      var current := first;
      ghost var i := 0;
      while current != null
        invariant 0 <= i <= |entries| && current == At(i)
        invariant data !in Contents()[..i]
        decreases |entries| - i
      {
        assert LinkedAt(i);
        if current.data == data {
          assert Contents()[i] == data;
          return true;
        }
        current := current.next;
        i := i + 1;
      }
      return false;
    }
  }

  /** The sequence without its first occurrence of x. */
  function RemoveFirst(s: seq<u32>, x: u32): (r: seq<u32>) {
    if s == [] then [] else if s[0] == x then s[1..] else [s[0]] + RemoveFirst(s[1..], x)
  }

  lemma {:induction false} RemoveFirstAt(s: seq<u32>, x: u32, i: nat)
    requires i < |s| && s[i] == x && x !in s[..i]
    ensures RemoveFirst(s, x) == s[..i] + s[i + 1..]
  {
    if i == 0 {
    } else {
      assert s[0] == s[..i][0];
      assert s[1..][..i - 1] == s[..i][1..];
      RemoveFirstAt(s[1..], x, i - 1);
    }
  }

  lemma {:induction false} RemoveFirstAbsent(s: seq<u32>, x: u32)
    requires x !in s
    ensures RemoveFirst(s, x) == s
  {
    if s == [] {
    } else {
      RemoveFirstAbsent(s[1..], x);
    }
  }

  /** Removal takes away one occurrence if there is one, and nothing else. */
  lemma {:induction false} RemoveFirstCounts(s: seq<u32>, x: u32)
    ensures multiset(RemoveFirst(s, x)) == multiset(s) - multiset{x}
  {
    if s == [] {
    } else {
      assert s == [s[0]] + s[1..];
      if s[0] != x {
        RemoveFirstCounts(s[1..], x);
        assert multiset(s) == multiset{s[0]} + multiset(s[1..]);
      }
    }
  }
}
