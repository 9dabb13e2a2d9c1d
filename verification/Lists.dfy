/**
 Singly linked lists with iteration markers, and the iteration that hands out a list in
 chunks by cutting it and joining it again.

 The elements of the original's lists are pointers to nodes; here they are node ids.
 */
module Lists {

  class List {
    var element: nat
    var next: List?

    constructor (element: nat, next: List?)
      ensures this.element == element && this.next == next
    {
      this.element, this.next := element, next;
    }
  }

  // The cells spine[lo..hi] are linked in order, and the last of them ends the list.
  ghost predicate Linked(spine: seq<List>, lo: nat, hi: nat)
    requires lo <= hi <= |spine|
    reads spine
  {
    && (forall i {:trigger spine[i].next} :: lo <= i && i + 1 < hi ==> spine[i].next == spine[i + 1])
    && (lo < hi ==> spine[hi - 1].next == null)
  }

  ghost predicate Distinct(spine: seq<List>) {
    forall i, j :: 0 <= i < j < |spine| ==> spine[i] != spine[j]
  }

  // l is a list whose cells are exactly spine.
  ghost predicate IsList(l: List?, spine: seq<List>)
    reads spine
  {
    && Distinct(spine)
    && l == (if spine == [] then null else spine[0])
    && Linked(spine, 0, |spine|)
  }

  ghost function Elements(spine: seq<List>): (s: seq<nat>)
    reads spine
    ensures |s| == |spine|
    ensures forall i :: 0 <= i < |s| ==> s[i] == spine[i].element
  {
    seq(|spine|, i requires 0 <= i < |spine| reads spine => spine[i].element)
  }

  lemma SliceIsList(spine: seq<List>, lo: nat, hi: nat)
    requires lo <= hi <= |spine| && Distinct(spine) && Linked(spine, 0, hi)
    ensures IsList(if lo < hi then spine[lo] else null, spine[lo..hi])
  {
    var part := spine[lo..hi];
    forall i | 0 <= i && i + 1 < |part| ensures part[i].next == part[i + 1] {
      assert part[i] == spine[lo + i];
    }
  }

  /** A marker walks along a list.  After NextChunkOnList the list is cut behind `current`,
      and `tail` holds the part that was cut off. */
  class ListMarker {
    var first: List?
    var current: List?
    var tail: List?
    ghost var spine: seq<List>  // all cells of the list, cut or not
    ghost var pos: nat             // how many of them have been iterated

    // Is the list cut behind the current cell?
    ghost predicate Cut()
      reads this, spine
      requires pos <= |spine|
    {
      0 < pos < |spine| && spine[pos - 1].next == null
    }

    ghost predicate Valid()
      reads this, spine
    {
      && pos <= |spine|
      && Distinct(spine)
      && first == (if spine == [] then null else spine[0])
      && current == (if pos == 0 then null else spine[pos - 1])
      && (if Cut() then Linked(spine, 0, pos) && Linked(spine, pos, |spine|) && tail == spine[pos]
          else Linked(spine, 0, |spine|) && tail == null)
    }

    // The list as it stood before iteration began.
    ghost predicate Whole()
      reads this, spine
    {
      IsList(first, spine)
    }

    constructor (list: List?, ghost cells: seq<List>)
      requires IsList(list, cells)
      ensures Valid() && spine == cells && pos == 0 && first == list && Whole() && !Cut()
    {
      first, current, tail := list, null, null;
      spine, pos := cells, 0;
    }

    method NextOnList() returns (more: bool)
      requires Valid()
      modifies this`current, this`tail, this`pos, spine
      ensures Valid() && spine == old(spine) && first == old(first) && pos <= |spine|
      ensures more == (old(pos) < |spine|)
      ensures !Cut()
      ensures more ==> pos == old(pos) + 1 && current == spine[pos - 1]
      ensures !more ==> pos == old(pos)
      ensures Elements(spine) == old(Elements(spine))
    {
      if current == null {
        if first == null {
          return false;
        }
        current := first;
      } else if current.next != null {
        current := current.next;
      } else if tail != null {
        // reconnect the temporary split
        current.next := tail;
        tail := null;
        current := current.next;
      } else {
        return false;
      }
      pos := pos + 1;
      return true;
    }

    method EndOfList() returns (end: bool)
      requires Valid()
      ensures end == (pos == |spine|)
    {
      if current == null {
        return first == null;
      }
      if current.next != null {
        return false;
      }
      return tail == null;
    }

    // The iteration stands where a chunk begins: at the start, at a cut, or at the end.
    ghost predicate AtCut()
      reads this, spine
      requires pos <= |spine|
    {
      pos == 0 || pos == |spine| || Cut()
    }

    /** Splits off at most `chunksize` elements starting at the point.  The chunk is a list of
        its own until the next call joins it to the rest again.  After a plain NextOnList in
        the middle of the list there is no chunk: the call returns NULL, as at the end, but
        elements have been passed over and the list may be left cut. */
    method NextChunkOnList(chunksize: nat) returns (chunk: List?)
      requires Valid()
      modifies this`current, this`tail, this`pos, spine
      ensures Valid() && spine == old(spine) && first == old(first)
      ensures pos == if old(pos) + chunksize <= |spine| then old(pos) + chunksize else |spine|
      ensures 0 < chunksize ==> AtCut()
      ensures old(AtCut()) ==>
        && (chunk == null <==> chunksize == 0 || old(pos) == |spine|)
        && IsList(chunk, spine[old(pos)..pos])
        && (0 < chunksize && chunk == null ==> Whole())
      ensures !old(AtCut()) ==> chunk == null && old(pos) < |spine| && (0 < chunksize ==> old(pos) < pos)
      ensures 0 < chunksize ==> (IsList(chunk, spine[old(pos)..pos]) <==> old(AtCut()))
      ensures Elements(spine) == old(Elements(spine))
    {
      if chunksize == 0 { return null; }
      chunk := if current != null then tail else first;
      Advance(chunksize);
      CutHere();
      if old(AtCut()) { SliceIsList(spine, old(pos), pos); }
    }

    // Terminates the list behind the point.
    method CutHere()
      requires Valid() && !Cut()
      modifies this`tail, spine
      ensures Valid() && (pos == |spine| || pos == 0 || Cut())
      ensures Linked(spine, 0, pos)
      ensures Elements(spine) == old(Elements(spine))
    {
      if current != null {
        tail := current.next;
        current.next := null;
      }
    }

    // The loop of NextChunkOnList: iterates over up to `chunksize` elements.
    method Advance(chunksize: nat)
      requires Valid() && 0 < chunksize
      modifies this`current, this`tail, this`pos, spine
      ensures Valid() && spine == old(spine) && first == old(first)
      ensures pos == if old(pos) + chunksize <= |spine| then old(pos) + chunksize else |spine|
      ensures old(pos) < pos ==> !Cut()
      ensures Elements(spine) == old(Elements(spine))
    {
      var i := 0;
      var more := true;
      while i < chunksize && more
        invariant Valid() && spine == old(spine) && first == old(first)
        invariant pos == old(pos) + i && i <= chunksize
        invariant !more ==> pos == |spine|
        invariant 0 < i ==> !Cut()
        invariant Elements(spine) == old(Elements(spine))
        decreases chunksize - i, more
      {
        more := NextOnList();
        if more {
          i := i + 1;
        }
      }
    }
  }
}
