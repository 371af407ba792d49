/**
 * Volume planning (`build_plan`, `update_plan_view`): the enabled chapters,
 * in list order, cut into consecutive volumes of at most the group size,
 * numbered from the start volume, with page totals.
 */
module Planner {
  import opened Prelude
  import opened Models

  /** A volume is a run of consecutive enabled chapters. */
  type Volume = seq<Chapter>

  /** A plan is the ordered list of volumes. */
  type Plan = seq<Volume>

  /** `[c for c in chapters if c.enabled]`. */
  function Enabled(chs: seq<Chapter>): (r: seq<Chapter>)
    ensures forall c :: c in r <==> c in chs && c.enabled
    ensures |r| <= |chs|
  {
    if |chs| == 0 then []
    else
      assert forall c :: c in chs <==> c == chs[0] || c in chs[1..];
      (if chs[0].enabled then [chs[0]] else []) + Enabled(chs[1..])
  }

  /** A single chapter passes the filter exactly when it is enabled. */
  lemma EnabledSingleton(c: Chapter)
    ensures Enabled([c]) == if c.enabled then [c] else []
  {
  }

  /** Filtering keeps list order and multiplicity: it distributes over
      concatenation. With `EnabledSingleton` this fixes `Enabled` on every
      list. */
  lemma {:induction false} EnabledAppend(a: seq<Chapter>, b: seq<Chapter>)
    ensures Enabled(a + b) == Enabled(a) + Enabled(b)
    decreases |a|
  {
    if |a| == 0 {
      assert a + b == b;
    } else {
      var head := if a[0].enabled then [a[0]] else [];
      assert (a + b)[0] == a[0];
      assert (a + b)[1..] == a[1..] + b;
      EnabledAppend(a[1..], b);
      calc {
        Enabled(a + b);
        head + Enabled(a[1..] + b);
        head + (Enabled(a[1..]) + Enabled(b));
        (head + Enabled(a[1..])) + Enabled(b);
        Enabled(a) + Enabled(b);
      }
    }
  }

  /** The volumes laid end to end. */
  function Flatten<T>(vs: seq<seq<T>>): seq<T>
  {
    if |vs| == 0 then [] else vs[0] + Flatten(vs[1..])
  }

  /** `max(1, int(group_size))`. */
  function GroupSize(raw: int): nat
  {
    Max(1, raw)
  }

  /** `max(1, int(start_volume))`. */
  function StartVolume(raw: int): int
  {
    Max(1, raw)
  }

  // ------------------------------------------------------- integer facts

  lemma DivUnique(a: int, g: int, q: int, m: int)
    requires g >= 1 && 0 <= m < g && a == q * g + m
    ensures a / g == q && a % g == m
  {
    var q' := a / g;
    var m' := a % g;
    assert (q' - q) * g == m - m' by {
      assert a == q' * g + m';
    }
    if q' > q {
      MulAtLeast(q' - q, g);
    } else if q' < q {
      MulAtLeast(q - q', g);
    }
  }

  lemma MulAtLeast(x: int, g: int)
    requires x >= 1 && g >= 1
    ensures x * g >= g
  {
  }

  lemma DivStep(x: nat, g: nat)
    requires g >= 1
    ensures (x + g) / g == x / g + 1
    ensures (x + g) % g == x % g
  {
    DivUnique(x + g, g, x / g + 1, x % g);
  }

  /** Cutting one group of `min(g, n)` off `n` items leaves one group
      fewer of the ceiling count. */
  lemma ChunkCountStep(n: nat, g: nat)
    requires n >= 1 && g >= 1
    ensures (n + g - 1) / g == 1 + (n - Min(g, n) + g - 1) / g
  {
    if n <= g {
      DivUnique(n + g - 1, g, 1, n - 1);
      DivUnique(g - 1, g, 0, g - 1);
    } else {
      DivStep(n - g + g - 1, g);
    }
  }

  // ------------------------------------------------------------ chunking

  /** `[s[i:i+g] for i in range(0, len(s), g)]`: Python's slices stop at
      the end of the list, so the last group may be shorter. */
  function Chunk<T>(s: seq<T>, g: nat): (r: seq<seq<T>>)
    requires g >= 1
    ensures Flatten(r) == s
    ensures forall i :: 0 <= i < |r| ==> 1 <= |r[i]| <= g
    ensures forall i :: 0 <= i < |r| - 1 ==> |r[i]| == g
    ensures |r| == (|s| + g - 1) / g
    decreases |s|
  {
    if |s| == 0 then []
    else
      var k := Min(g, |s|);
      var rest := Chunk(s[k..], g);
      var r := [s[..k]] + rest;
      assert r[1..] == rest;
      assert s == s[..k] + s[k..];
      ChunkCountStep(|s|, g);
      r
  }

  /** Where group `q` starts: `q * g`, counted up group by group. */
  function GroupStart(q: nat, g: nat): nat
  {
    if q == 0 then 0 else GroupStart(q - 1, g) + g
  }

  lemma {:induction false} GroupStartIsProduct(q: nat, g: nat)
    ensures GroupStart(q, g) == q * g
  {
    if q > 0 {
      GroupStartIsProduct(q - 1, g);
      assert q * g == (q - 1) * g + g;
    }
  }

  /** Position `q * g + m` of the sequence, for `m < g`, is element `m` of
      group `q`: each element lands in exactly one group, at a place fixed
      by its index. */
  lemma {:induction false} ChunkIndex<T>(s: seq<T>, g: nat, q: nat, m: nat)
    requires g >= 1 && m < g && GroupStart(q, g) + m < |s|
    ensures q < |Chunk(s, g)|
    ensures m < |Chunk(s, g)[q]|
    ensures Chunk(s, g)[q][m] == s[GroupStart(q, g) + m]
    decreases q
  {
    var k := Min(g, |s|);
    var c := Chunk(s, g);
    var rest := Chunk(s[k..], g);
    assert c == [s[..k]] + rest;
    if q == 0 {
      assert c[0] == s[..k];
    } else {
      var p' := GroupStart(q - 1, g) + m;
      assert k == g;
      ChunkIndex(s[g..], g, q - 1, m);
      assert c[q] == rest[q - 1];
      assert s[g..][p'] == s[p' + g];
    }
  }

  // ------------------------------------------------------------ planning

  /** `build_plan`: the plan is a partition of the enabled chapters. Laid
      end to end the volumes are exactly the enabled chapters in list
      order; no volume is empty or larger than the group size; every volume
      but the last is full; there are ceil(n / g) volumes. */
  function BuildPlan(chs: seq<Chapter>, groupSize: int): (plan: Plan)
    ensures Flatten(plan) == Enabled(chs)
    ensures forall i :: 0 <= i < |plan| ==> 1 <= |plan[i]| <= GroupSize(groupSize)
    ensures forall i :: 0 <= i < |plan| - 1 ==> |plan[i]| == GroupSize(groupSize)
    ensures |plan| == (|Enabled(chs)| + GroupSize(groupSize) - 1) / GroupSize(groupSize)
  {
    Chunk(Enabled(chs), GroupSize(groupSize))
  }

  /** There is no volume at all exactly when no chapter is enabled. */
  lemma BuildPlanEmpty(chs: seq<Chapter>, groupSize: int)
    ensures BuildPlan(chs, groupSize) == [] <==> forall c :: c in chs ==> !c.enabled
  {
    var e := Enabled(chs);
    if e != [] {
      assert e[0] in chs;
      assert Flatten(BuildPlan(chs, groupSize)) != [];
    }
  }

  /** Each enabled chapter sits in exactly one volume, at the place its
      position among the enabled chapters dictates: with group size `g`,
      enabled chapter `q * g + m` (`GroupStart(q, g) + m`) is chapter `m`
      of volume `q`. */
  lemma BuildPlanPlacement(chs: seq<Chapter>, groupSize: int, q: nat, m: nat)
    requires m < GroupSize(groupSize) && GroupStart(q, GroupSize(groupSize)) + m < |Enabled(chs)|
    ensures q < |BuildPlan(chs, groupSize)|
    ensures m < |BuildPlan(chs, groupSize)[q]|
    ensures BuildPlan(chs, groupSize)[q][m] == Enabled(chs)[GroupStart(q, GroupSize(groupSize)) + m]
  {
    ChunkIndex(Enabled(chs), GroupSize(groupSize), q, m);
  }

  // -------------------------------------------------------------- totals

  /** `sum(ch.pages for ch in chs)`. */
  function Pages(chs: seq<Chapter>): nat
  {
    if |chs| == 0 then 0 else chs[0].Pages() + Pages(chs[1..])
  }

  lemma {:induction false} PagesAppend(a: seq<Chapter>, b: seq<Chapter>)
    ensures Pages(a + b) == Pages(a) + Pages(b)
    decreases |a|
  {
    if |a| > 0 {
      assert (a + b)[1..] == a[1..] + b;
      PagesAppend(a[1..], b);
    } else {
      assert a + b == b;
    }
  }

  /** Sum over the volumes of each volume's pages. */
  function VolumePages(vs: Plan): nat
  {
    if |vs| == 0 then 0 else Pages(vs[0]) + VolumePages(vs[1..])
  }

  /** Counting the pages of all chapters of all volumes is summing the
      volumes' page counts. */
  lemma {:induction false} PagesFlatten(vs: Plan)
    ensures Pages(Flatten(vs)) == VolumePages(vs)
    decreases |vs|
  {
    if |vs| > 0 {
      PagesAppend(vs[0], Flatten(vs[1..]));
      PagesFlatten(vs[1..]);
    }
  }

  /** Only enabled chapters count, and disabled ones add nothing. */
  lemma {:induction false} EnabledPagesBound(chs: seq<Chapter>)
    ensures Pages(Enabled(chs)) <= Pages(chs)
    ensures (forall c :: c in chs ==> c.enabled) ==> Pages(Enabled(chs)) == Pages(chs)
    decreases |chs|
  {
    if |chs| > 0 {
      EnabledPagesBound(chs[1..]);
      var head: seq<Chapter> := if chs[0].enabled then [chs[0]] else [];
      PagesAppend(head, Enabled(chs[1..]));
      assert forall c :: c in chs[1..] ==> c in chs;
    }
  }

  // ------------------------------------------------------------ the view

  /** One row of the plan view: the volume number, its chapters and its
      page count. */
  datatype VolumeRow = VolumeRow(number: int, chapters: Volume, pages: nat)

  /** What `update_plan_view` shows: a row per volume and the summary. */
  datatype PlanView = PlanView(rows: seq<VolumeRow>, totalVolumes: nat, totalPages: nat)

  /** Sum of the rows' page counts. */
  function RowPages(rows: seq<VolumeRow>): nat
  {
    if |rows| == 0 then 0 else rows[0].pages + RowPages(rows[1..])
  }

  lemma {:induction false} RowPagesOfPlan(rows: seq<VolumeRow>, plan: Plan)
    requires |rows| == |plan|
    requires forall i :: 0 <= i < |rows| ==> rows[i].pages == Pages(plan[i])
    ensures RowPages(rows) == VolumePages(plan)
    decreases |rows|
  {
    if |rows| > 0 {
      RowPagesOfPlan(rows[1..], plan[1..]);
    }
  }

  /** The rows of the view for a plan whose first volume is number
      `start`: row `i` shows volume `start + i` with its chapters and page
      count, and the rows' pages add up to all the plan's chapters' pages. */
  function PlanRows(plan: Plan, start: int): (rows: seq<VolumeRow>)
    ensures |rows| == |plan|
    ensures forall i :: 0 <= i < |rows| ==> rows[i] == VolumeRow(start + i, plan[i], Pages(plan[i]))
    ensures RowPages(rows) == Pages(Flatten(plan))
  {
    var rows := seq(|plan|, i requires 0 <= i < |plan| => VolumeRow(start + i, plan[i], Pages(plan[i])));
    PagesFlatten(plan);
    RowPagesOfPlan(rows, plan);
    rows
  }

  /** `update_plan_view`: a row per volume of the plan, numbered from
      `max(1, start)`, so the numbers form a contiguous range; the total
      equals both the sum of the rows and the pages of all enabled
      chapters. */
  function ViewPlan(chs: seq<Chapter>, groupSize: int, startVolume: int): (v: PlanView)
    ensures v.rows == PlanRows(BuildPlan(chs, groupSize), StartVolume(startVolume))
    ensures v.totalVolumes == |v.rows| == |BuildPlan(chs, groupSize)|
    ensures v.totalPages == RowPages(v.rows)
    ensures v.totalPages == Pages(Enabled(chs))
  {
    var plan := BuildPlan(chs, groupSize);
    var rows := PlanRows(plan, StartVolume(startVolume));
    PlanView(rows, |plan|, Pages(Flatten(plan)))
  }
}
