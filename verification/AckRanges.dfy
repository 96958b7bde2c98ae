/** The packet numbers an end has received, kept as at most 32 ranges, newest first
    (WASM/transport/src/stream.js `record`, `names`, and the pruning in `onChunk`). */
module AckRanges {
  const MAX_RANGES: nat := 32

  datatype Range = Range(hi: nat, lo: nat)

  predicate Names(r: seq<Range>, pn: int) {
    exists i :: 0 <= i < |r| && r[i].lo <= pn <= r[i].hi
  }

  /** Strictly descending, disjoint, and never adjacent: no two ranges could be one. */
  predicate Good(r: seq<Range>) {
    && (forall i :: 0 <= i < |r| ==> r[i].lo <= r[i].hi)
    && (forall i, j :: 0 <= i < j < |r| ==> r[j].hi + 1 < r[i].lo)
  }

  /** The first range reaching down to pn + 1 or below; |r| for none. */
  function Slot(r: seq<Range>, pn: nat): (i: nat)
    ensures i <= |r|
    ensures forall j :: 0 <= j < i ==> r[j].lo > pn + 1
    ensures i < |r| ==> r[i].lo <= pn + 1
  {
    if r == [] || r[0].lo <= pn + 1 then 0
    else
      assert forall j :: 0 < j < |r| ==> r[j] == r[1..][j - 1];
      1 + Slot(r[1..], pn)
  }

  /** What stands in for ranges i .. past once pn has joined them. */
  datatype Merge = Merge(mid: Range, past: nat)

  function MergeAt(r: seq<Range>, pn: nat, i: nat): (m: Merge)
    requires i == Slot(r, pn)
    ensures i <= m.past <= |r|
  {
    if i == |r| || r[i].hi + 1 < pn then Merge(Range(pn, pn), i)
    else if pn == r[i].hi + 1 then Merge(Range(pn, r[i].lo), i + 1)
    else if pn + 1 == r[i].lo then
      if i + 1 < |r| && r[i + 1].hi + 1 == pn
      then Merge(Range(r[i].hi, r[i + 1].lo), i + 2)
      else Merge(Range(r[i].hi, pn), i + 1)
    else Merge(r[i], i + 1)
  }

  /** pn merged into the ranges, before the cap. */
  function Insert(r: seq<Range>, pn: nat): seq<Range> {
    var i := Slot(r, pn);
    var m := MergeAt(r, pn, i);
    r[..i] + [m.mid] + r[m.past..]
  }

  function Record(r: seq<Range>, pn: nat): seq<Range> {
    var full := Insert(r, pn);
    if |full| > MAX_RANGES then full[..MAX_RANGES] else full
  }

  lemma InsertGood(r: seq<Range>, pn: nat)
    requires Good(r)
    ensures Good(Insert(r, pn))
    ensures |Insert(r, pn)| <= |r| + 1
  {
    var i := Slot(r, pn);
    var m := MergeAt(r, pn, i);
    SpliceGood(r[..i], m.mid, r[m.past..]);
  }

  lemma SpliceGood(a: seq<Range>, m: Range, b: seq<Range>)
    requires Good(a) && Good(b) && m.lo <= m.hi
    requires a != [] ==> m.hi + 1 < a[|a| - 1].lo
    requires b != [] ==> b[0].hi + 1 < m.lo
    ensures Good(a + [m] + b)
  {
    var s := a + [m] + b;
    forall i | 0 <= i < |s|
      ensures s[i].lo <= s[i].hi
    {
    }
    forall i, j | 0 <= i < j < |s|
      ensures s[j].hi + 1 < s[i].lo
    {
      assert i < |a| ==> m.hi + 1 < s[i].lo;
      assert j > |a| ==> s[j].hi + 1 < m.lo;
    }
  }

  lemma NamesConcat(a: seq<Range>, b: seq<Range>, x: int)
    ensures Names(a + b, x) <==> Names(a, x) || Names(b, x)
  {
    if Names(a, x) {
      var k :| 0 <= k < |a| && a[k].lo <= x <= a[k].hi;
      assert (a + b)[k] == a[k];
    }
    if Names(b, x) {
      var k :| 0 <= k < |b| && b[k].lo <= x <= b[k].hi;
      assert (a + b)[|a| + k] == b[k];
    }
  }

  /** The ranges a merge replaces denote the merged one, but for the new number. */
  lemma MergeNames(r: seq<Range>, pn: nat, x: int)
    requires Good(r)
    ensures var i := Slot(r, pn); var m := MergeAt(r, pn, i);
            m.mid.lo <= x <= m.mid.hi <==> Names(r[i..m.past], x) || x == pn
  {
    var i := Slot(r, pn);
    var gone := r[i..MergeAt(r, pn, i).past];
    assert gone == [] || gone == [r[i]] || (i + 1 < |r| && gone == [r[i], r[i + 1]]);
    assert |gone| >= 1 && r[i].lo <= x <= r[i].hi ==> Names(gone, x) by {
      assert |gone| >= 1 ==> gone[0] == r[i];
    }
    assert |gone| == 2 && r[i + 1].lo <= x <= r[i + 1].hi ==> Names(gone, x) by {
      assert |gone| == 2 ==> gone[1] == r[i + 1];
    }
  }

  lemma SpliceNames(front: seq<Range>, gone: seq<Range>, mid: Range, back: seq<Range>, pn: nat, x: int)
    requires mid.lo <= x <= mid.hi <==> Names(gone, x) || x == pn
    ensures Names(front + [mid] + back, x) <==> Names(front + gone + back, x) || x == pn
  {
    NamesConcat(front + gone, back, x);
    NamesConcat(front, gone, x);
    NamesConcat(front + [mid], back, x);
    NamesConcat(front, [mid], x);
    assert [mid][0] == mid;
  }

  lemma InsertNames(r: seq<Range>, pn: nat, x: int)
    requires Good(r)
    ensures Names(Insert(r, pn), x) <==> Names(r, x) || x == pn
  {
    var i := Slot(r, pn);
    var m := MergeAt(r, pn, i);
    MergeNames(r, pn, x);
    SpliceNames(r[..i], r[i..m.past], m.mid, r[m.past..], pn, x);
    assert r == r[..i] + r[i..m.past] + r[m.past..];
  }

  /** `record` keeps the ranges well formed and capped, and they denote the old numbers and
      the new one, less only the oldest range when there were too many. */
  lemma RecordDenotes(r: seq<Range>, pn: nat)
    requires Good(r) && |r| <= MAX_RANGES
    ensures Good(Record(r, pn)) && |Record(r, pn)| <= MAX_RANGES
    ensures forall x :: Names(Record(r, pn), x) ==> Names(r, x) || x == pn
    ensures |Insert(r, pn)| <= MAX_RANGES ==>
              forall x :: Names(Record(r, pn), x) <==> Names(r, x) || x == pn
    ensures |Insert(r, pn)| > MAX_RANGES ==>
              var full := Insert(r, pn);
              && |full| == MAX_RANGES + 1
              && (forall x :: Names(Record(r, pn), x) <==>
                              (Names(r, x) || x == pn) && x > full[MAX_RANGES].hi)
  {
    InsertGood(r, pn);
    var full, kept := Insert(r, pn), Record(r, pn);
    forall x
      ensures Names(full, x) <==> Names(r, x) || x == pn
    {
      InsertNames(r, pn, x);
    }
    forall x | Names(kept, x)
      ensures Names(full, x) && (|full| > MAX_RANGES ==> x > full[MAX_RANGES].hi)
    {
      var k :| 0 <= k < |kept| && kept[k].lo <= x <= kept[k].hi;
      assert full[k] == kept[k];
    }
    if |full| > MAX_RANGES {
      forall x | Names(full, x) && x > full[MAX_RANGES].hi
        ensures Names(kept, x)
      {
        var k :| 0 <= k < |full| && full[k].lo <= x <= full[k].hi;
        assert k < MAX_RANGES && kept[k] == full[k];
      }
    }
  }

  /** Forget the oldest ranges the sender no longer waits on, keeping at least one. */
  function Trim(r: seq<Range>, floor: nat): (t: seq<Range>)
    ensures t <= r
    ensures r != [] ==> t != []
  {
    if |r| > 1 && r[|r| - 1].hi < floor then Trim(r[..|r| - 1], floor) else r
  }

  /** Pruning below the floor loses no number at or above it, so an ack still names every
      packet the sender waits on. */
  lemma {:induction false} TrimDenotes(r: seq<Range>, floor: nat)
    requires Good(r)
    ensures Good(Trim(r, floor))
    ensures forall x :: Names(Trim(r, floor), x) ==> Names(r, x)
    ensures forall x :: x >= floor && Names(r, x) ==> Names(Trim(r, floor), x)
  {
    if |r| > 1 && r[|r| - 1].hi < floor {
      var s := r[..|r| - 1];
      TrimDenotes(s, floor);
      forall x | x >= floor && Names(r, x)
        ensures Names(s, x)
      {
        var k :| 0 <= k < |r| && r[k].lo <= x <= r[k].hi;
        assert s[k] == r[k];
      }
      forall x | Names(s, x)
        ensures Names(r, x)
      {
        var k :| 0 <= k < |s| && s[k].lo <= x <= s[k].hi;
        assert s[k] == r[k];
      }
    }
  }
}
