/** The linked list of the client sockets that are being served. */
module ClientList {

  class Val {
    var prev: Val? // the value behind this one
    const sckVal: int

    constructor (sckVal: int)
      ensures this.sckVal == sckVal && prev == null
    {
      this.sckVal := sckVal;
      prev := null;
    }
  }

  function Without(s: seq<int>, k: nat): seq<int>
    requires k < |s|
  {
    s[..k] + s[k + 1..]
  }

  predicate Distinct(s: seq<int>) {
    forall i, j :: 0 <= i < j < |s| ==> s[i] != s[j]
  }

  class List {
    var first: Val?
    var last: Val?
    var listLength: nat
    ghost var cells: seq<Val>

    ghost predicate Valid()
      reads this, cells
    {
      && listLength == |cells|
      && (|cells| == 0 ==> first == null && last == null)
      && (|cells| > 0 ==> first == cells[0] && last == cells[|cells| - 1] && last.prev == null)
      && (forall i, j :: 0 <= i < j < |cells| ==> cells[i] != cells[j])
      && (forall i :: 0 <= i < |cells| - 1 ==> cells[i].prev == cells[i + 1])
    }

    /** The sockets in the list, in order. */
    ghost function Sockets(): seq<int>
      reads this
    {
      seq(|cells|, i requires 0 <= i < |cells| reads this => cells[i].sckVal)
    }

    constructor ()
      ensures Valid() && Sockets() == []
    {
      first, last, listLength, cells := null, null, 0, [];
    }

    /** `lPush`. */
    method Push(newVal: Val)
      requires Valid() && newVal !in cells
      modifies this, newVal, cells
      ensures Valid() && cells == old(cells) + [newVal]
      ensures Sockets() == old(Sockets()) + [newVal.sckVal]
    {
      newVal.prev := null;
      if listLength == 0 {
        first := newVal;
        last := newVal;
      } else {
        last.prev := newVal;
        last := newVal;
      }
      listLength := listLength + 1;
      cells := cells + [newVal];
    }

    /** `find_next`: a first pass for the position of the value, a second one for the cell in front of it. */
    method FindNext(sckVal: int) returns (cell: Val?)
      requires Valid() && Distinct(Sockets())
      ensures forall k :: 0 < k < |cells| && cells[k].sckVal == sckVal ==> cell == cells[k - 1]
      ensures (forall k :: 0 < k < |cells| ==> cells[k].sckVal != sckVal) ==> cell == null
    {
      var temp := first;
      var i, retNumber := 0, -1;
      if temp != null {
        while i < listLength
          invariant 0 <= i <= |cells| && temp == if i < |cells| then cells[i] else null
          invariant forall k :: 0 <= k < i ==> cells[k].sckVal != sckVal
          invariant retNumber == -1
        {
          if temp.sckVal == sckVal {
            retNumber := i - 1;
            break;
          }
          temp := temp.prev;
          i := i + 1;
        }
      }
      ghost var at := i;
      assert at < |cells| ==> Sockets()[at] == sckVal && retNumber == at - 1;
      assert forall k :: 0 <= k < |cells| ==> Sockets()[k] == cells[k].sckVal;
      temp := first;
      if temp != null {
        i := 0;
        while i < listLength
          invariant 0 <= i <= |cells| && temp == if i < |cells| then cells[i] else null
          invariant i <= retNumber || retNumber == -1
        {
          if i == retNumber { return temp; }
          temp := temp.prev;
          i := i + 1;
        }
      }
      cell := null;
    }

    /** `pullList`: unlinks a cell at the head, at the tail or in between. */
    method PullCell(cell: Val, ghost k: nat)
      requires Valid() && Distinct(Sockets()) && k < |cells| && cells[k] == cell
      modifies this, cells
      ensures Valid() && cells == old(cells[..k] + cells[k + 1..])
    {
      assert forall i :: 0 <= i < |cells| ==> Sockets()[i] == cells[i].sckVal;
      if first.sckVal == cell.sckVal {
        if listLength == 1 {
          first, last := null, null;
          listLength := listLength - 1;
        } else {
          first := first.prev;
          listLength := listLength - 1;
        }
      } else if last.sckVal == cell.sckVal {
        assert Sockets()[|cells| - 1] == Sockets()[k];
        assert 0 < k == |cells| - 1;
        var next := FindNext(last.sckVal);
        assert next == cells[k - 1];
        last := next;
        next.prev := null;
        listLength := listLength - 1;
      } else {
        assert 0 < k < |cells| - 1;
        var next := FindNext(cell.sckVal);
        assert next == cells[k - 1];
        next.prev := cell.prev;
        listLength := listLength - 1;
      }
      cells := cells[..k] + cells[k + 1..];
    }

    /** `pullSpec`: removes the cell with this socket, if there is one. */
    method PullSpec(pVal: int)
      requires Valid() && Distinct(Sockets())
      modifies this, cells
      ensures Valid() && Distinct(Sockets())
      ensures pVal !in old(Sockets()) ==> Sockets() == old(Sockets())
      ensures pVal in old(Sockets()) ==>
                exists k :: 0 <= k < |old(Sockets())| && old(Sockets())[k] == pVal
                            && Sockets() == Without(old(Sockets()), k)
      ensures pVal !in Sockets()
    {
      ghost var socks := Sockets();
      var temp := first;
      if temp != null {
        var i := 0;
        while i < listLength
          invariant 0 <= i <= |cells| == |socks| && Valid() && Sockets() == socks && cells == old(cells)
          invariant temp == if i < |cells| then cells[i] else null
          invariant forall k :: 0 <= k < i ==> socks[k] != pVal
        {
          if temp.sckVal == pVal {
            assert socks[i] == pVal;
            PullCell(temp, i);
            assert Sockets() == Without(socks, i);
            break;
          }
          assert socks[i] == temp.sckVal;
          temp := temp.prev;
          i := i + 1;
        }
      }
    }
  }
}
