/**
 The list of online users: a buffer of fixed-width slots, sized by one query, filled row by row by
 the callback of a second query, and read back by the client with the same stride. Other slaves
 may change the database between the two queries, so the count and the rows are unrelated here.
 */
module OnlineList {
  import opened Prelude
  import opened Relations
  import opened StoreInvariant

  const SLOT: nat := 33
  const NUL := '\0'
  const INT_MAX := 0x7fff_ffff

  predicate NulFree(n: Name) {
    forall j :: 0 <= j < |n| ==> n[j] != NUL
  }

  /** A column value that fits its slot together with the terminator. */
  predicate Fits(n: Name) {
    |n| <= MAX_NAME_LENGTH && NulFree(n)
  }

  function Blank(n: nat): (r: seq<char>)
    ensures |r| == n && forall j :: 0 <= j < n ==> r[j] == NUL
  {
    seq(n, _ => NUL)
  }

  function Padded(n: Name): (r: seq<char>)
    requires Fits(n)
    ensures |r| == SLOT
  {
    n + Blank(SLOT - |n|)
  }

  function SlotOf(buf: seq<char>, i: nat): (r: seq<char>)
    requires SLOT * i + SLOT <= |buf|
    ensures |r| == SLOT
  {
    buf[SLOT * i..SLOT * i + SLOT]
  }

  /** Printing a slot stops at the first NUL. */
  function Shows(slot: seq<char>): string {
    if slot == [] || slot[0] == NUL then "" else [slot[0]] + Shows(slot[1..])
  }

  lemma {:induction false} ShowsName(n: Name, rest: seq<char>)
    requires NulFree(n) && rest != [] && rest[0] == NUL
    ensures Shows(n + rest) == n
  {
    if n == [] {
      assert n + rest == rest;
    } else {
      assert (n + rest)[1..] == n[1..] + rest;
      ShowsName(n[1..], rest);
    }
  }

  lemma PaddedReads(n: Name)
    requires Fits(n)
    ensures Shows(Padded(n)) == n
  {
    ShowsName(n, Blank(SLOT - |n|));
  }

  /** What slot i of a list of `count` slots shows when the second query yields `rows`. */
  function Shown(rows: seq<Name>, count: nat, i: nat): Name {
    if i < |rows| && i < count then rows[i] else ""
  }

  /** Writing a name and its terminator at the start of a slot. */
  lemma RowWritten(before: seq<char>, after: seq<char>, size: nat, cur: nat, row: Name)
    requires |before| == |after| == SLOT * size && cur < size && Fits(row)
    requires forall j :: 0 <= j < |row| ==> after[SLOT * cur + j] == row[j]
    requires after[SLOT * cur + |row|] == NUL
    requires forall k :: 0 <= k < SLOT * cur || SLOT * cur + |row| < k < SLOT * size ==> after[k] == before[k]
    ensures Shows(SlotOf(after, cur)) == row
    ensures SlotOf(before, cur) == Blank(SLOT) ==> SlotOf(after, cur) == Padded(row)
    ensures forall i: nat :: i < size && i != cur ==> SlotOf(after, i) == SlotOf(before, i)
  {
    var slot := SlotOf(after, cur);
    var rest := slot[|row|..];
    assert slot == row + rest;
    ShowsName(row, rest);
    if SlotOf(before, cur) == Blank(SLOT) {
      forall j | |row| < j < SLOT ensures slot[j] == NUL {
        assert slot[j] == SlotOf(before, cur)[j];
      }
    }
  }

  class StringList {
    const result: array<char>
    var currPos: nat
    const size: nat

    ghost predicate Valid()
      reads this
    {
      result.Length == SLOT * size && currPos <= size
    }

    /** The buffer is zeroed. */
    constructor (size: nat)
      ensures Valid() && this.size == size && currPos == 0 && fresh(result)
      ensures result[..] == Blank(SLOT * size)
    {
      this.size := size;
      currPos := 0;
      result := new char[SLOT * size](_ => NUL);
      new;
      assert result[..] == Blank(SLOT * size);
    }

    /** One row. Rows beyond the size are ignored; otherwise the name and its terminator stay
        inside the slot, and no other slot changes. */
    method Callback(row: Name)
      requires Valid() && Fits(row)
      modifies this`currPos, result
      ensures Valid() && currPos == if old(currPos) < size then old(currPos) + 1 else old(currPos)
      ensures old(currPos) >= size ==> result[..] == old(result[..])
      ensures old(currPos) < size ==> Shows(SlotOf(result[..], old(currPos))) == row
      ensures old(currPos) < size && SlotOf(old(result[..]), old(currPos)) == Blank(SLOT)
              ==> SlotOf(result[..], old(currPos)) == Padded(row)
      ensures forall i: nat :: i < size && i != old(currPos) ==>
        SlotOf(result[..], i) == SlotOf(old(result[..]), i)
    {
      if currPos >= size {
        return;
      }
      var at := SLOT * currPos;
      ghost var before := result[..];
      forall j | 0 <= j < |row| {
        result[at + j] := row[j];
      }
      result[at + |row|] := NUL;
      RowWritten(before, result[..], size, currPos, row);
      currPos := currPos + 1;
    }
  }

  /** The size of the buffer is kept in a 32-bit variable. */
  function Wrap32(x: nat): int {
    var low := x % 0x1_0000_0000;
    if low <= INT_MAX then low else low - 0x1_0000_0000
  }

  function BufDim(count: nat): int {
    Wrap32(SLOT * count)
  }

  /** Exactly when the buffer has room for all slots; otherwise it has less. */
  lemma BufferHoldsSlotsIff(count: nat)
    ensures BufDim(count) == SLOT * count <==> 33 * count <= 0x7fff_ffff
    ensures 33 * count > 0x7fff_ffff ==> BufDim(count) < SLOT * count
  {
  }

  /** The number of slots comes from the first query, the rows from the second. Whatever they
      are, the first slots hold the first rows in order and the rest are zero. A count that does not
      fit is answered with no buffer; one whose buffer's size does not fit has no meaning, because
      the slots would not fit into the buffer. */
  method ExecGetOnlineUser(count: nat, rows: seq<Name>) returns (defined: bool, bufDim: int, list: array<char>)
    requires forall i :: 0 <= i < |rows| ==> Fits(rows[i])
    ensures defined <==> count > INT_MAX || BufDim(count) == SLOT * count
    ensures fresh(list) && (defined ==> bufDim == list.Length == if count > INT_MAX then 0 else SLOT * count)
    ensures defined && count <= INT_MAX ==>
      forall i: nat :: i < count ==> SlotOf(list[..], i) == Padded(Shown(rows, count, i))
  {
    if count > INT_MAX {
      list := new char[0];
      return true, 0, list;
    }
    bufDim := BufDim(count);
    if bufDim != SLOT * count {
      list := new char[0];
      return false, bufDim, list;
    }
    var query := new StringList(count);
    for k := 0 to |rows|
      invariant query.Valid() && query.size == count && fresh(query) && fresh(query.result)
      invariant query.currPos == if k < count then k else count
      invariant forall i: nat :: i < count ==> SlotOf(query.result[..], i) == Padded(Shown(rows[..k], count, i))
    {
      query.Callback(rows[k]);
    }
    assert rows[..|rows|] == rows;
    return true, bufDim, query.result;
  }

  /** The client's loop over the received list. Before it the client asserts that the list is not
      empty, and the assertion ends it otherwise. */
  method ShowUsers(buf: seq<char>) returns (aborted: bool, shown: seq<string>)
    ensures aborted <==> |buf| < SLOT
    ensures |shown| == |buf| / SLOT
    ensures forall i :: 0 <= i < |shown| ==> shown[i] == Shows(SlotOf(buf, i))
  {
    var nusers := |buf| / SLOT;
    shown := [];
    if !(nusers > 0) {
      return true, shown;
    }
    aborted := false;
    var p := 0;
    for i := 0 to nusers
      invariant |shown| == i && p == SLOT * i
      invariant forall k :: 0 <= k < i ==> shown[k] == Shows(SlotOf(buf, k))
    {
      shown := shown + [Shows(buf[p..p + SLOT])];
      p := p + SLOT;
    }
  }

  /** The first rows, and empty names up to the count. */
  function FirstOf(rows: seq<Name>, count: nat): seq<string> {
    if |rows| < count then rows + seq(count - |rows|, _ => "") else rows[..count]
  }

  /** For any two database states seen by the two queries, the client shows exactly the first
      names of the second, in order, and an empty name for every slot that is left; it is ended by
      its assertion exactly if the count is zero or does not fit. */
  method ListOnlineUsers(count: nat, rows: seq<Name>) returns (defined: bool, aborted: bool, shown: seq<string>)
    requires forall i :: 0 <= i < |rows| ==> Fits(rows[i])
    ensures defined <==> count > INT_MAX || SLOT * count <= INT_MAX
    ensures defined ==> (aborted <==> count == 0 || count > INT_MAX)
    ensures defined ==> shown == if count > INT_MAX then [] else FirstOf(rows, count)
  {
    var dim, list;
    BufferHoldsSlotsIff(count);
    defined, dim, list := ExecGetOnlineUser(count, rows);
    aborted, shown := ShowUsers(list[..]);
    if defined && count <= INT_MAX {
      forall i | 0 <= i < count ensures shown[i] == Shown(rows, count, i) {
        PaddedReads(Shown(rows, count, i));
      }
    }
  }

  /** The names a run can store always fit their slots: registration refuses longer ones. */
  lemma OnlineNamesFit(ops: seq<Op>, rows: seq<Name>)
    requires forall i :: 0 <= i < |rows| ==> NulFree(rows[i])
    requires forall i :: 0 <= i < |rows| ==> Online(ApplyAll(EMPTY, ops), rows[i])
    ensures forall i :: 0 <= i < |rows| ==> Fits(rows[i])
  {
    ReachableInv(ops);
  }
}
