/**
 * Keeping a report under its size cap (size.go): whole scanner results are dropped in a fixed
 * order, each visibly. The marshalled size of a report is a function parameter.
 */
module ReportSize {
  import opened Base

  datatype Reason = TooLarge | OtherReason(code: string)

  /** A slice field: nil and an empty list marshal differently but hold no findings. */
  datatype List = Nil | Items(items: seq<string>)

  /** One scanner's part of a report: its lists (two for network_activity), status and reason. */
  datatype Entry = Entry(name: string, lists: seq<List>, status: Option<ScanStatus>, error: Option<Reason>)

  /** The scanner results of a report, in drop order. */
  type Contents = seq<Entry>

  const DROP_ORDER: seq<string> :=
    ["models", "ai_processes", "nodejs_ai", "python_envs", "network_activity",
     "browser", "mcp_servers", "ai_apps", "cloud_clients", "gpu"]

  /** json.Marshal's length, or None when it fails. */
  type Size = Contents -> Option<nat>

  predicate Fits(r: Contents, size: Size, max: int) { size(r).Some? && size(r).value <= max }

  function Found(l: List): seq<string> { match l case Nil => [] case Items(xs) => xs }

  predicate HasFindings(lists: seq<List>) { exists i | 0 <= i < |lists| :: Found(lists[i]) != [] }

  function Cleared(lists: seq<List>): seq<List> { seq(|lists|, i => Nil) }

  /** A scanner that ran cleanly and found something. */
  predicate Droppable(e: Entry) { e.status == Some(IsOk) && HasFindings(e.lists) }

  function Names(r: Contents): seq<string> { seq(|r|, i requires 0 <= i < |r| => r[i].name) }

  class Report {
    var entries: Contents

    constructor (r: Contents)
      requires Names(r) == DROP_ORDER
      ensures entries == r
    {
      entries := r;
    }

    method ClearSection(i: nat) returns (had: bool)
      requires i < |entries|
      modifies this
      ensures had == HasFindings(old(entries)[i].lists)
      ensures entries == old(entries)[i := old(entries)[i].(lists := Cleared(old(entries)[i].lists))]
    {
      had := HasFindings(entries[i].lists);
      entries := entries[i := entries[i].(lists := Cleared(entries[i].lists))];
    }

    /** `EnforceMaxSize`; `stop` is how far down the drop order it went. */
    method EnforceMaxSize(max: int, size: Size) returns (dropped: seq<string>, ghost stop: nat)
      modifies this
      ensures Enforced(old(entries), entries, dropped, stop, max, size)
    {
      ghost var was := entries;
      dropped, stop := [], 0;
      VisitedNone(was);
      if max <= 0 || Fits(entries, size, max) {
        return;
      }
      for i := 0 to |entries|
        invariant stop == i <= |was| && entries == Visited(was, i) && dropped == Dropped(was, i)
        invariant NoneFit(was, i + 1, max, size)
      {
        stop := i + 1;
        if entries[i].status != Some(IsOk) {
          continue;
        }
        var had := ClearSection(i);
        if !had {
          continue;
        }
        entries := entries[i := entries[i].(status := Some(Error), error := Some(TooLarge))];
        dropped := dropped + [entries[i].name];
        if Fits(entries, size, max) {
          return;
        }
      }
    }
  }

  // ---------------------------------------------------------------- specification

  /** What a visit leaves of one scanner: findings go, and a drop is marked. */
  function Visit(e: Entry): Entry {
    if e.status != Some(IsOk) then e
    else if !HasFindings(e.lists) then e.(lists := Cleared(e.lists))
    else Entry(e.name, Cleared(e.lists), Some(Error), Some(TooLarge))
  }

  /** The report after the first `j` scanners were visited. */
  function Visited(r: Contents, j: nat): Contents
    requires j <= |r|
  {
    seq(|r|, i requires 0 <= i < |r| => if i < j then Visit(r[i]) else r[i])
  }

  /** The droppable scanners among the first `j`, in drop order. */
  function Dropped(r: Contents, j: nat): seq<string>
    requires j <= |r|
  {
    if j == 0 then [] else Dropped(r, j - 1) + if Droppable(r[j - 1]) then [r[j - 1].name] else []
  }

  /** The report was too large at the start and after each drop made before visit `j`. */
  ghost predicate NoneFit(r: Contents, j: nat, max: int, size: Size) {
    forall i | 0 <= i < j && i <= |r| && (i == 0 || Droppable(r[i - 1])) :: !Fits(Visited(r, i), size, max)
  }

  ghost predicate Enforced(r: Contents, r': Contents, dropped: seq<string>, stop: nat, max: int, size: Size) {
    && stop <= |r| && r' == Visited(r, stop) && dropped == Dropped(r, stop)
    && if max <= 0 || Fits(r, size, max) then stop == 0
       else NoneFit(r, stop, max, size) && (stop == |r| || Fits(r', size, max))
  }

  lemma VisitedNone(r: Contents)
    ensures Visited(r, 0) == r
  {
  }

  /** Whatever is dropped is the drop-order prefix of what could be dropped. */
  lemma {:induction false} DroppedIsPrefix(r: Contents, j: nat, k: nat)
    requires j <= k <= |r|
    ensures Dropped(r, j) <= Dropped(r, k)
    decreases k - j
  {
    if j < k { DroppedIsPrefix(r, j, k - 1); }
  }

  lemma {:induction false} DroppedHas(r: Contents, j: nat, i: nat)
    requires i < j <= |r| && Droppable(r[i])
    ensures r[i].name in Dropped(r, j)
  {
    if i < j - 1 { DroppedHas(r, j - 1, i); }
  }

  lemma {:induction false} DroppedOnly(r: Contents, j: nat, n: string)
    requires j <= |r| && n in Dropped(r, j)
    ensures exists i | 0 <= i < j :: Droppable(r[i]) && r[i].name == n
  {
    if n in Dropped(r, j - 1) {
      DroppedOnly(r, j - 1, n);
    } else {
      assert Droppable(r[j - 1]) && r[j - 1].name == n;
    }
  }

  predicate Distinct(names: seq<string>) { forall i, j | 0 <= i < j < |names| :: names[i] != names[j] }

  lemma DropOrderIsDistinct()
    ensures Distinct(DROP_ORDER)
  {
    var d := DROP_ORDER;
    assert |d[0]| == 6 && |d[1]| == 12 && |d[2]| == 9 && |d[3]| == 11 && |d[4]| == 16;
    assert |d[5]| == 7 && |d[6]| == 11 && |d[7]| == 7 && |d[8]| == 13 && |d[9]| == 3;
    assert d[3][0] == 'p' && d[6][0] == 'm' && d[5][0] == 'b' && d[7][0] == 'a';
  }

  /** A dropped scanner ran cleanly, is left empty and is marked too_large. */
  lemma DropsAreVisible(r: Contents, r': Contents, dropped: seq<string>, stop: nat, max: int, size: Size, i: nat)
    requires Enforced(r, r', dropped, stop, max, size) && Distinct(Names(r))
    requires i < |r| && r[i].name in dropped
    ensures |r'| == |r| && r'[i].name == r[i].name && Droppable(r[i])
    ensures !HasFindings(r'[i].lists) && r'[i].status == Some(Error) && r'[i].error == Some(TooLarge)
  {
    DroppedOnly(r, stop, r[i].name);
    var k :| 0 <= k < stop && Droppable(r[k]) && r[k].name == r[i].name;
    assert Names(r)[k] == Names(r)[i];
    assert k == i;
  }

  /** Every other scanner keeps its findings, status and reason. */
  lemma OthersAreKept(r: Contents, r': Contents, dropped: seq<string>, stop: nat, max: int, size: Size, i: nat)
    requires Enforced(r, r', dropped, stop, max, size)
    requires i < |r| && r[i].name !in dropped
    ensures |r'| == |r| && r'[i].name == r[i].name && r'[i].status == r[i].status && r'[i].error == r[i].error
    ensures |r'[i].lists| == |r[i].lists| && forall l | 0 <= l < |r[i].lists| ::
            Found(r'[i].lists[l]) == Found(r[i].lists[l])
  {
    if i < stop && Droppable(r[i]) { DroppedHas(r, stop, i); }
  }

  /** The visit that made drop number `k`, or none. */
  lemma {:induction false} VisitOfDrop(r: Contents, j: nat, k: nat) returns (i: nat)
    requires j <= |r| && k <= |Dropped(r, j)|
    ensures i <= j && |Dropped(r, i)| == k && Dropped(r, i) == Dropped(r, j)[..k]
    ensures i == 0 || Droppable(r[i - 1])
  {
    if j == 0 || (k == |Dropped(r, j)| && Droppable(r[j - 1])) {
      i := j;
    } else {
      i := VisitOfDrop(r, j - 1, k);
    }
  }

  /** Either the result fits or everything droppable is gone. */
  lemma DropsEnough(r: Contents, r': Contents, dropped: seq<string>, stop: nat, max: int, size: Size)
    requires Enforced(r, r', dropped, stop, max, size) && max > 0
    ensures dropped <= Dropped(r, |r|)
    ensures (size(r').Some? && size(r').value <= max) || dropped == Dropped(r, |r|)
  {
    VisitedNone(r);
    DroppedIsPrefix(r, stop, |r|);
  }

  /** No shorter prefix of the drops would have done: after each the report was still too large. */
  lemma DropsNoMoreThanNeeded(r: Contents, r': Contents, dropped: seq<string>, stop: nat, max: int, size: Size, k: nat)
    returns (i: nat)
    requires Enforced(r, r', dropped, stop, max, size) && k < |dropped|
    ensures i <= |r| && Dropped(r, i) == dropped[..k]
    ensures size(Visited(r, i)).Some? ==> size(Visited(r, i)).value > max
  {
    i := VisitOfDrop(r, stop, k);
  }

  /** Without a cap, or within it, nothing is touched. */
  lemma SmallReportIsUntouched(r: Contents, r': Contents, dropped: seq<string>, stop: nat, max: int, size: Size)
    requires Enforced(r, r', dropped, stop, max, size)
    requires max <= 0 || (size(r).Some? && size(r).value <= max)
    ensures r' == r && dropped == []
  {
    VisitedNone(r);
  }

  /** No scanner of `v` can be dropped, and visiting one changes nothing. */
  ghost predicate Spent(v: Contents) { forall i | 0 <= i < |v| :: !Droppable(v[i]) && Visit(v[i]) == v[i] }

  lemma VisitedIsSpent(r: Contents)
    ensures Spent(Visited(r, |r|))
  {
    forall i | 0 <= i < |r| ensures !Droppable(Visited(r, |r|)[i]) && Visit(Visited(r, |r|)[i]) == Visited(r, |r|)[i] {
    }
  }

  lemma {:induction false} NothingLeft(v: Contents, j: nat)
    requires Spent(v) && j <= |v|
    ensures Dropped(v, j) == []
    ensures Visited(v, j) == v
  {
    if j == 0 {
      VisitedNone(v);
    } else {
      NothingLeft(v, j - 1);
    }
  }

  /** Enforcing the cap a second time drops nothing and changes nothing. */
  lemma SecondCallDropsNothing(r: Contents, r1: Contents, d1: seq<string>, s1: nat, r2: Contents, d2: seq<string>,
                               s2: nat, max: int, size: Size)
    requires Enforced(r, r1, d1, s1, max, size) && Enforced(r1, r2, d2, s2, max, size)
    ensures d2 == [] && r2 == r1
  {
    VisitedNone(r);
    if max <= 0 || Fits(r1, size, max) {
      VisitedNone(r1);
    } else {
      VisitedIsSpent(r);
      NothingLeft(r1, s2);
    }
  }
}
