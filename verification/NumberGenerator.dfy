/**
 The message-number generator: the largest number in the file, raised past the reservations that other
 writers hold, by a scan that starts again after every collision.
 */
module NumberGenerator {
  import opened Tokenize
  import opened LineCodec
  import opened Numbers
  import opened BulletinLines
  import opened Descriptor

  function Max(a: int, b: int): int {
    if a < b then b else a
  }

  /** The largest first field of a line, read as a number; at least zero. */
  function FileMax(ls: seq<string>): (m: nat)
    ensures forall q :: 0 <= q < |ls| ==> Atoi(KeyOf(ls[q])) <= m
    ensures m == 0 || exists q :: 0 <= q < |ls| && Atoi(KeyOf(ls[q])) == m
  {
    if |ls| == 0 then 0 else Max(FileMax(ls[..|ls| - 1]), Atoi(KeyOf(ls[|ls| - 1])))
  }

  lemma FileMaxMore(ls: seq<string>, line: string)
    ensures FileMax(ls + [line]) == Max(FileMax(ls), Atoi(KeyOf(line)))
  {
    assert (ls + [line])[..|ls|] == ls;
  }

  function Top(list: seq<int>): (t: int)
    ensures forall q :: 0 <= q < |list| ==> list[q] <= t
  {
    if |list| == 0 then 0 else Max(Top(list[..|list| - 1]), list[|list| - 1])
  }

  function Tail(list: seq<int>): seq<int> {
    if |list| == 0 then [] else list[1..]
  }

  /** The smallest number from `m` on that is not in the list. */
  function LeastFree(list: seq<int>, m: int): (f: int)
    ensures m <= f && f !in list
    ensures forall v :: m <= v < f ==> v in list
    decreases Max(0, Top(list) + 1 - m)
  {
    if m in list then LeastFree(list, m + 1) else m
  }

  /** The number the scan ends at and reserves.  A collision makes the scan start again, but behind slot 0. */
  function ReservedFor(fileMax: nat, list: seq<int>): int {
    if fileMax in list then LeastFree(Tail(list), fileMax + 1) else fileMax
  }

  /** The number handed out. */
  function IssuedFor(fileMax: nat, list: seq<int>): int {
    if fileMax in list then ReservedFor(fileMax, list) else fileMax + 1
  }

  lemma LeastFreeIs(list: seq<int>, m: int, f: int)
    requires m <= f && f !in list && forall v :: m <= v < f ==> v in list
    ensures LeastFree(list, m) == f
  {
    var g := LeastFree(list, m);
    assert g < f ==> g in list;
    assert f < g ==> f in list;
  }

  /** The first slot with this number, or the number of slots. */
  function FirstSlot(list: seq<int>, num: int): (k: nat)
    ensures k <= |list| && (k < |list| ==> list[k] == num)
    ensures forall q :: 0 <= q < k ==> list[q] != num
  {
    if |list| == 0 || list[0] == num then 0 else 1 + FirstSlot(list[1..], num)
  }

  lemma SlotAt(list: seq<int>, num: int, j: nat)
    requires j < |list| && j <= FirstSlot(list, num)
    ensures if list[j] == num then FirstSlot(list, num) == j else j < FirstSlot(list, num)
  {
  }

  class Generator {
    const tempList: array<int>
    var count: nat

    ghost predicate Valid()
      reads this
    {
      count <= tempList.Length
    }

    ghost function Reserved(): seq<int>
      requires Valid()
      reads this, tempList
    {
      tempList[..count]
    }

    constructor (capacity: nat)
      ensures Valid() && Reserved() == [] && tempList.Length == capacity && fresh(tempList)
    {
      tempList := new int[capacity];
      count := 0;
    }

    method LargestNumber(file: BulletinFile) returns (max: nat)
      requires file.Valid()
      ensures max == FileMax(Lines(file.data))
    {
      ghost var ls := Lines(file.data);
      var buf := new char[BBLINE_LEN + 1];
      var pos: nat, more, line := 0, true, "";
      max := 0;
      ghost var done: seq<string> := [];
      while true
        invariant At(file.data, done, pos) && done <= ls == Lines(file.data)
        invariant max == FileMax(done)
        decreases |file.data| - pos
      {
        more, line, pos := NextLine(file.data, pos, buf, done);
        if !more { break; }
        var tokens := TokenizeText(Fields, line, |line|);
        if Atoi(tokens[0]) > max {
          max := Atoi(tokens[0]);
        }
        FileMaxMore(done, line);
        done := done + [line];
      }
    }

    /** `generate_number`. */
    method GenerateNumber(file: BulletinFile) returns (number: int)
      requires Valid() && file.Valid() && count < tempList.Length
      modifies this`count, tempList
      ensures Valid()
      ensures !file.available ==> number == -2 && Reserved() == old(Reserved())
      ensures file.available ==>
                var m := FileMax(Lines(file.data));
                && number == IssuedFor(m, old(Reserved()))
                && Reserved() == old(Reserved()) + [ReservedFor(m, old(Reserved()))]
    {
      if !file.available { return -2; }
      var max: int := LargestNumber(file);
      ghost var m, list := max, Reserved();
      var maxChanged := false;
      var j := 0;
      while j < count
        invariant 0 <= j <= count && tempList[..count] == list
        invariant !maxChanged ==> max == m && m !in list[..j]
        invariant maxChanged ==> m in list && j >= 1 && max > m && max !in list[1..j]
        invariant maxChanged ==> forall v :: m < v < max ==> v in list[1..]
        decreases Max(0, Top(list) + 1 - max), count - j
      {
        var jj := j;
        assert list[j] == tempList[j];
        if max == tempList[j] {
          max := max + 1;
          maxChanged := true;
          j := 0;
        }
        if jj == count - 1 && j != 0 {
          assert list[..j + 1] == list[..j] + [list[j]] && list[1..j + 1] == list[1..j] + [list[j]];
          assert list[..j + 1] == list && list[1..j + 1] == list[1..];
          break;
        }
        if j == jj {
          assert list[..j + 1] == list[..j] + [list[j]];
          assert j >= 1 ==> list[1..j + 1] == list[1..j] + [list[j]];
        }
        j := j + 1;
      }
      tempList[count] := max;
      count := count + 1;
      number := if !maxChanged then max + 1 else max;
      assert tempList[..count] == list + [max];
      if maxChanged {
        LeastFreeIs(Tail(list), m + 1, max);
      }
    }

    /** `release_number`: clears the first slot that holds the number. */
    method ReleaseNumber(num: int) returns (code: int)
      requires Valid()
      modifies tempList
      ensures var list := old(Reserved()); var k := FirstSlot(list, num);
              if k < |list| then code == 0 && Reserved() == list[k := 0] else code == -1 && Reserved() == list
    {
      ghost var list := Reserved();
      for j := 0 to count
        invariant Reserved() == list && j <= FirstSlot(list, num)
      {
        assert list[j] == tempList[j];
        SlotAt(list, num, j);
        if num == tempList[j] {
          tempList[j] := 0;
          assert Reserved() == list[j := 0];
          return 0;
        }
      }
      code := -1;
    }
  }

  // ---- what the generator promises

  /** The number handed out is larger than every number in the file, so nothing is shown under its printed form. */
  lemma IssuedIsFresh(ls: seq<string>, list: seq<int>)
    requires GoodLines(ls)
    ensures var n := IssuedFor(FileMax(ls), list);
            && n > FileMax(ls)
            && GoodId(Print(n)) && Find(ls, Print(n)) == |ls| && Print(n) !in BoardOf(ls)
  {
    var n := IssuedFor(FileMax(ls), list);
    AtoiPrint(n);
    PrintedIsGood(n);
    FindBoard(ls, Print(n));
  }

  lemma PrintedIsGood(n: nat)
    ensures GoodId(Print(n))
  {
    var s := Print(n);
    assert forall j :: 0 <= j < |s| ==> IsDigit(s[j]);
    assert IsDigit(s[0]);
  }

  lemma {:induction false} Pigeonhole(list: seq<int>, a: int, b: int)
    requires a <= b && forall v :: a <= v < b ==> v in list
    ensures b - a <= |list|
    decreases |list|
  {
    if a < b {
      assert b - 1 in list;
      var k :| 0 <= k < |list| && list[k] == b - 1;
      var rest := list[..k] + list[k + 1..];
      forall v | a <= v < b - 1 ensures v in rest {
        assert v in list;
        var q :| 0 <= q < |list| && list[q] == v;
        assert if q < k then rest[q] == v else rest[q - 1] == v;
      }
      Pigeonhole(rest, a, b - 1);
    }
  }

  /** Every number that was skipped is a reservation, so the numbers stay close to the file. */
  lemma IssuedBound(fileMax: nat, list: seq<int>)
    ensures fileMax < IssuedFor(fileMax, list) <= fileMax + Max(1, |list|)
    ensures forall v :: fileMax <= v < ReservedFor(fileMax, list) ==> v in list
    ensures ReservedFor(fileMax, list) !in Tail(list)
  {
    Pigeonhole(list, fileMax, ReservedFor(fileMax, list));
  }

  /** The reservation may repeat slot 0: the scan never goes back there. */
  lemma ReservedMayRepeatSlotZero()
    ensures ReservedFor(4, [5, 4]) == 5
  {
    LeastFreeIs([4], 5, 5);
    assert Tail([5, 4]) == [4];
    assert [5, 4][1] == 4;
  }

  /** When it does: the file's largest number is reserved, and slot 0 holds a larger one that no other slot holds,
      while the others hold all numbers in between. */
  lemma ReservedRepeats(fileMax: nat, list: seq<int>)
    ensures ReservedFor(fileMax, list) in list
       <==> && fileMax in list && list[0] > fileMax && list[0] !in list[1..]
            && forall v :: fileMax < v < list[0] ==> v in list[1..]
  {
    if fileMax in list {
      var r := LeastFree(list[1..], fileMax + 1);
      assert list == [list[0]] + list[1..];
      if list[0] > fileMax && list[0] !in list[1..] && forall v :: fileMax < v < list[0] ==> v in list[1..] {
        LeastFreeIs(list[1..], fileMax + 1, list[0]);
      }
    }
  }

  /** Two calls with no write in between hand out the same number exactly when neither the file's largest number
      nor, behind slot 0, the number above it is reserved. */
  lemma SecondCallRepeats(fileMax: nat, list: seq<int>)
    ensures IssuedFor(fileMax, list + [ReservedFor(fileMax, list)]) == IssuedFor(fileMax, list)
       <==> fileMax !in list && fileMax + 1 !in Tail(list)
  {
    var r := ReservedFor(fileMax, list);
    var list' := list + [r];
    assert list'[|list|] == r;
    if |list| > 0 {
      assert Tail(list') == Tail(list) + [r];
    }
    if fileMax in list {
      assert fileMax in list';
    }
  }

  /** Releasing the number that was handed out takes back the reservation made with it exactly if the file's largest
      number was reserved and the reservation is not in a slot in front. */
  lemma ReleaseTakesBack(fileMax: nat, list: seq<int>)
    ensures FirstSlot(list + [ReservedFor(fileMax, list)], IssuedFor(fileMax, list)) == |list|
       <==> fileMax in list && ReservedFor(fileMax, list) !in list
  {
    var r, n := ReservedFor(fileMax, list), IssuedFor(fileMax, list);
    var list' := list + [r];
    var k := FirstSlot(list', n);
    assert list'[|list|] == r;
    assert forall q :: 0 <= q < |list| ==> list'[q] == list[q];
  }

  /** Otherwise it can clear the slot of somebody else. */
  lemma ReleaseClearsOther()
    ensures ReservedFor(4, [5]) == 4 && IssuedFor(4, [5]) == 5 && FirstSlot([5] + [4], 5) == 0
  {
    assert [5][0] == 5 && ([5] + [4])[0] == 5;
  }

  /** The largest number of the file is that of a live line, or 0; deleted lines do not count. */
  lemma FileMaxLive(ls: seq<string>)
    ensures FileMax(ls) == 0 || exists q :: 0 <= q < |ls| && !Garbage(ls[q]) && Atoi(KeyOf(ls[q])) == FileMax(ls)
  {
    if FileMax(ls) != 0 {
      var q :| 0 <= q < |ls| && Atoi(KeyOf(ls[q])) == FileMax(ls);
      if Garbage(ls[q]) {
        GarbageKey(ls[q]);
        GarbageNumber(ls[q]);
      }
    }
  }

  lemma GarbageNumber(line: string)
    requires Garbage(line)
    ensures Atoi(line) == 0
  {
    assert !IsDigit(BACKSPACE);
    NoNumber(line);
  }

  /** The number handed out is larger than all numbers in the file, and by no more than the number of reservations, or
      one, larger than the largest of its live lines, or than 0 if they have none. */
  lemma IssuedNear(ls: seq<string>, list: seq<int>)
    ensures var n := IssuedFor(FileMax(ls), list);
            && (forall q :: 0 <= q < |ls| ==> Atoi(KeyOf(ls[q])) < n)
            && (n <= Max(1, |list|)
                || exists q :: 0 <= q < |ls| && !Garbage(ls[q]) && n <= Atoi(KeyOf(ls[q])) + Max(1, |list|))
  {
    FileMaxLive(ls);
    IssuedBound(FileMax(ls), list);
  }

  /** The first number of all. */
  lemma FirstNumber()
    ensures IssuedFor(FileMax([]), []) == 1
  {
  }
}
