/** Every sequence of takes, releases and timeouts on one mutex, with no other cause
    of priority changes. */
module MutexRuns {
  import opened Mutex
  import opened WaitOrder

  /** The mutex with what its users know: each thread's own priority, the takes it has
      not released, when it began to wait, and the priorities of all threads that have
      asked since the present owner got the mutex. */
  datatype World = World(m: State, base: seq<nat>, net: seq<nat>, arrival: seq<nat>, clock: nat, asked: seq<nat>)

  datatype Step = TakeIt(t: nat, wait: bool) | ReleaseIt(t: nat) | ExpireIt(t: nat)

  function Least(p: nat, asked: seq<nat>): (r: nat)
    ensures r <= p && (forall x :: x in asked ==> r <= x) && (r == p || r in asked)
  {
    if |asked| == 0 then p
    else
      var r := Least(p, asked[..|asked| - 1]);
      assert asked == asked[..|asked| - 1] + [asked[|asked| - 1]];
      if asked[|asked| - 1] < r then asked[|asked| - 1] else r
  }

  /** Thread a goes before thread b: more urgent, or as urgent and waiting longer. */
  ghost predicate Prec(cur: seq<nat>, arrival: seq<nat>, a: nat, b: nat) {
    a < |cur| && b < |cur| && a < |arrival| && b < |arrival|
    && (cur[a] < cur[b] || (cur[a] == cur[b] && arrival[a] < arrival[b]))
  }

  ghost predicate Before(w: World, a: nat, b: nat) {
    Prec(w.m.cur, w.arrival, a, b)
  }

  ghost predicate Ranked(ws: seq<nat>, cur: seq<nat>, arrival: seq<nat>) {
    forall i, j {:trigger Prec(cur, arrival, ws[i], ws[j])} :: 0 <= i < j < |ws| ==> Prec(cur, arrival, ws[i], ws[j])
  }

  ghost predicate Known(ws: seq<nat>, n: nat, owner: int, arrival: seq<nat>, clock: nat) {
    forall x :: x in ws ==> x < n && x < |arrival| && x != owner && arrival[x] < clock
  }

  ghost predicate Queue(w: World) {
    Known(w.m.waiters, |w.m.cur|, w.m.owner, w.arrival, w.clock) && Ranked(w.m.waiters, w.m.cur, w.arrival)
  }

  /** Only the waiters' own priorities and arrivals matter for the order. */
  lemma RankedSame(ws: seq<nat>, cur: seq<nat>, cur': seq<nat>, arrival: seq<nat>, arrival': seq<nat>)
    requires Ranked(ws, cur, arrival) && |cur'| == |cur| && |arrival'| == |arrival|
    requires forall i :: 0 <= i < |ws| ==>
      ws[i] < |cur| && ws[i] < |arrival| && cur'[ws[i]] == cur[ws[i]] && arrival'[ws[i]] == arrival[ws[i]]
    ensures Ranked(ws, cur', arrival')
  {
    forall i, j | 0 <= i < j < |ws| ensures Prec(cur', arrival', ws[i], ws[j]) {
      assert Prec(cur, arrival, ws[i], ws[j]);
    }
  }

  /** Joining at the place for its priority, the newest thread keeps the order. */
  lemma InsertRanked(ws: seq<nat>, cur: seq<nat>, arrival: seq<nat>, t: nat)
    requires Ranked(ws, cur, arrival) && t < |cur| == |arrival|
    requires forall i :: 0 <= i < |ws| ==> ws[i] < |cur| && arrival[ws[i]] < arrival[t]
    ensures Ranked(InsertAt(ws, Place(PriosOf(ws, cur), cur[t], Prio), t), cur, arrival)
  {
    var k := Place(PriosOf(ws, cur), cur[t], Prio);
    var r := InsertAt(ws, k, t);
    forall i, j | 0 <= i < j < |r| ensures Prec(cur, arrival, r[i], r[j]) {
      if i == k {
        assert r[j] == ws[j - 1];
        if k < j - 1 { assert Prec(cur, arrival, ws[k], ws[j - 1]); }
      } else if j != k {
        assert Prec(cur, arrival, ws[if i < k then i else i - 1], ws[if j < k then j else j - 1]);
      }
    }
  }

  lemma InsertMembers(ws: seq<nat>, k: nat, t: nat)
    requires k <= |ws|
    ensures forall x :: x in InsertAt(ws, k, t) <==> x == t || x in ws
  {
    assert ws == ws[..k] + ws[k..];
  }

  lemma RemoveRanked(ws: seq<nat>, k: nat, cur: seq<nat>, arrival: seq<nat>)
    requires Ranked(ws, cur, arrival) && k < |ws|
    ensures Ranked(RemoveAt(ws, k), cur, arrival)
    ensures forall x :: x in RemoveAt(ws, k) ==> x in ws && x != ws[k]
  {
    var r := RemoveAt(ws, k);
    forall i, j | 0 <= i < j < |r| ensures Prec(cur, arrival, r[i], r[j]) {
      assert Prec(cur, arrival, ws[if i < k then i else i + 1], ws[if j < k then j else j + 1]);
    }
    forall x: nat | x in r ensures x in ws && x != ws[k] {
      var i :| 0 <= i < |r| && r[i] == x;
      var o := if i < k then i else i + 1;
      assert ws[o] == x && (o < k ==> Prec(cur, arrival, ws[o], ws[k])) && (o > k ==> Prec(cur, arrival, ws[k], ws[o]));
    }
  }

  lemma TailRanked(ws: seq<nat>, cur: seq<nat>, arrival: seq<nat>)
    requires Ranked(ws, cur, arrival) && |ws| > 0
    ensures Ranked(ws[1..], cur, arrival)
    ensures forall x :: x in ws[1..] ==> x in ws && x != ws[0] && Prec(cur, arrival, ws[0], x)
    ensures forall i {:trigger ws[1..][i]} :: 0 <= i < |ws| - 1 ==> ws[1..][i] in ws
  {
    assert RemoveAt(ws, 0) == ws[1..];
    RemoveRanked(ws, 0, cur, arrival);
    forall x: nat | x in ws[1..] ensures Prec(cur, arrival, ws[0], x) {
      var i :| 0 <= i < |ws[1..]| && ws[1..][i] == x;
      assert Prec(cur, arrival, ws[0], ws[i + 1]);
    }
  }

  ghost predicate Sizes(w: World) {
    && |w.m.cur| == |w.base| == |w.net| == |w.arrival|
    && (w.m.owner == NOBODY || 0 <= w.m.owner < |w.base|)
  }

  /** Free and owned states, and who has taken how often. */
  ghost predicate Holding(w: World)
    requires Sizes(w)
  {
    && (w.m.owner == NOBODY ==> w.m.value == 1 && w.m.hold == 0 && w.m.waiters == [])
    && (w.m.owner != NOBODY ==> w.m.value == 0 && 1 <= w.m.hold <= HOLD_MAX)
    && (forall t :: 0 <= t < |w.net| ==> w.net[t] == if t == w.m.owner then w.m.hold else 0)
  }

  /** Everyone but the owner runs at its own priority; the owner at the most urgent of
      its own and those of all who asked, and so at least as urgently as any waiter. */
  ghost predicate Inherits(w: World)
    requires Sizes(w)
  {
    && (forall t :: 0 <= t < |w.base| && t != w.m.owner ==> w.m.cur[t] == w.base[t])
    && (w.m.owner != NOBODY ==>
         && w.m.original == w.base[w.m.owner]
         && w.m.cur[w.m.owner] == Least(w.base[w.m.owner], w.asked)
         && (forall x :: x in w.m.waiters && x < |w.m.cur| ==> w.m.cur[w.m.owner] <= w.m.cur[x]))
  }

  ghost predicate Inv(w: World) {
    Sizes(w) && Queue(w) && Holding(w) && Inherits(w)
  }

  /** Suspended threads do not run. */
  ghost predicate Enabled(w: World, a: Step) {
    match a
    case TakeIt(t, _) => t < |w.m.cur| && t !in w.m.waiters
    case ReleaseIt(t) => t < |w.m.cur| && t !in w.m.waiters
    case ExpireIt(t) => t in w.m.waiters
  }

  function Apply(w: World, a: Step): World
    requires Sizes(w) && Enabled(w, a) && (a.ReleaseIt? && w.m.owner == a.t ==> 0 < w.m.hold)
  {
    match a
    case TakeIt(t, wait) =>
      var m := Take(w.m, t, wait);
      (match TakeResult(w.m, t, wait)
       case Ok => w.(m := m, net := w.net[t := w.net[t] + 1], asked := if w.m.owner == t then w.asked else [])
       case Suspended => w.(m := m, arrival := w.arrival[t := w.clock], clock := w.clock + 1,
                            asked := w.asked + [w.m.cur[t]])
       case _ => w.(m := m))
    case ReleaseIt(t) =>
      var m := Release(w.m, t);
      if w.m.owner != t then w
      else
        var given := w.net[t := if w.net[t] > 0 then w.net[t] - 1 else 0];
        w.(m := m, asked := if m.owner == t then w.asked else [],
           net := if m.owner != t && 0 <= m.owner < |given| then given[m.owner := given[m.owner] + 1] else given)
    case ExpireIt(t) => w.(m := Expire(w.m, t))
  }

  lemma StepTake(w: World, t: nat, wait: bool)
    requires Inv(w) && Enabled(w, TakeIt(t, wait)) && TakeResult(w.m, t, wait) != Suspended
    ensures Inv(Apply(w, TakeIt(t, wait)))
  {
  }

  lemma LeastOf(p: nat, asked: seq<nat>, x: nat)
    ensures Least(p, asked + [x]) == if x < Least(p, asked) then x else Least(p, asked)
  {
    assert (asked + [x])[..|asked|] == asked;
  }

  /** A wait list that thread t joins while the owner may be boosted to `p`. */
  lemma JoinQueue(ws: seq<nat>, cur: seq<nat>, arrival: seq<nat>, owner: nat, clock: nat, t: nat, p: nat)
    requires Known(ws, |cur|, owner, arrival, clock) && Ranked(ws, cur, arrival)
    requires owner < |cur| && t < |cur| == |arrival| && t !in ws && owner != t
    ensures var cur' := cur[owner := p];
            var arrival' := arrival[t := clock];
            var r := InsertAt(ws, Place(PriosOf(ws, cur'), cur'[t], Prio), t);
            && Known(r, |cur|, owner, arrival', clock + 1) && Ranked(r, cur', arrival')
            && forall x :: x in r ==> x == t || x in ws
  {
    hide Place, InsertAt, PriosOf, Ranked;
    var cur' := cur[owner := p];
    var arrival' := arrival[t := clock];
    forall i | 0 <= i < |ws| ensures ws[i] in ws && ws[i] != t && ws[i] != owner {
      assert ws[i] in ws;
    }
    RankedSame(ws, cur, cur', arrival, arrival');
    InsertRanked(ws, cur', arrival', t);
    InsertMembers(ws, Place(PriosOf(ws, cur'), cur'[t], Prio), t);
  }

  /** The list after thread t joined it at its place. */
  lemma SuspendQueue(w: World, t: nat)
    requires Inv(w) && Enabled(w, TakeIt(t, true)) && TakeResult(w.m, t, true) == Suspended
    ensures Queue(Apply(w, TakeIt(t, true)))
    ensures forall x :: x in Apply(w, TakeIt(t, true)).m.waiters ==> x == t || x in w.m.waiters
  {
    hide Least, Place, InsertAt, PriosOf, Inherits, Ranked, Known;
    var own := w.m.owner;
    var p := if w.m.cur[t] < w.m.cur[own] then w.m.cur[t] else w.m.cur[own];
    JoinQueue(w.m.waiters, w.m.cur, w.arrival, own, w.clock, t, p);
    assert Apply(w, TakeIt(t, true)).m.cur == w.m.cur[own := p];
  }

  lemma StepSuspend(w: World, t: nat)
    requires Inv(w) && Enabled(w, TakeIt(t, true)) && TakeResult(w.m, t, true) == Suspended
    ensures Inv(Apply(w, TakeIt(t, true)))
  {
    hide Queue, Place, InsertAt, PriosOf, Least;
    SuspendQueue(w, t);
    LeastOf(w.base[w.m.owner], w.asked, w.m.cur[t]);
  }

  lemma StepRelease(w: World, t: nat)
    requires Inv(w) && Enabled(w, ReleaseIt(t))
    ensures Inv(Apply(w, ReleaseIt(t)))
  {
    var w' := Apply(w, ReleaseIt(t));
    if w.m.owner == t && w.m.hold == 1 && |w.m.waiters| > 0 {
      HandoverQueue(w, t);
    }
  }

  /** The first waiter leaves the list and is at least as urgent as the others. */
  lemma HandoverQueue(w: World, t: nat)
    requires Inv(w) && Enabled(w, ReleaseIt(t)) && w.m.owner == t && w.m.hold == 1 && |w.m.waiters| > 0
    ensures Queue(Apply(w, ReleaseIt(t)))
    ensures w.m.waiters[0] in w.m.waiters && w.m.waiters[0] !in w.m.waiters[1..]
    ensures forall x :: x in w.m.waiters[1..] ==> x in w.m.waiters && Before(w, w.m.waiters[0], x)
  {
    hide Inherits;
    var ws, w' := w.m.waiters, Apply(w, ReleaseIt(t));
    assert ws[0] in ws;
    TailRanked(ws, w.m.cur, w.arrival);
    assert w'.m.waiters == ws[1..];
    RankedSame(ws[1..], w.m.cur, w'.m.cur, w.arrival, w'.arrival);
  }

  lemma StepExpire(w: World, t: nat)
    requires Inv(w) && Enabled(w, ExpireIt(t))
    ensures Inv(Apply(w, ExpireIt(t)))
  {
    var k := IndexFrom(w.m.waiters, t, 0);
    assert k < |w.m.waiters|;
    RemoveRanked(w.m.waiters, k, w.m.cur, w.arrival);
  }

  lemma StepInv(w: World, a: Step)
    requires Inv(w) && Enabled(w, a)
    ensures Inv(Apply(w, a))
  {
    hide Queue, Inherits;
    match a {
      case TakeIt(t, wait) =>
        if TakeResult(w.m, t, wait) == Suspended { StepSuspend(w, t); } else { StepTake(w, t, wait); }
      case ReleaseIt(t) => StepRelease(w, t);
      case ExpireIt(t) => StepExpire(w, t);
    }
  }

  ghost predicate Legal(w: World, run: seq<Step>)
    requires Inv(w)
    decreases |run|
  {
    |run| > 0 ==> Enabled(w, run[0]) && (StepInv(w, run[0]); Legal(Apply(w, run[0]), run[1..]))
  }

  ghost function Run(w: World, run: seq<Step>): (z: World)
    requires Inv(w) && Legal(w, run)
    ensures Inv(z)
    decreases |run|
  {
    if |run| == 0 then w else StepInv(w, run[0]); Run(Apply(w, run[0]), run[1..])
  }

  /** rt_mutex_init on threads that run at their own priorities. */
  ghost predicate Start(w: World) {
    && w.m == State(1, 0, NOBODY, NO_PRIORITY, [], w.base)
    && |w.base| == |w.net| == |w.arrival|
    && (forall t :: 0 <= t < |w.net| ==> w.net[t] == 0)
  }

  /** Along every run: no owner iff value is 1 iff hold is 0, and then nobody waits;
      hold is the owner's net takes and nobody else has any; threads that do not own
      the mutex are at their own priority and the owner is no less urgent than its
      own, than the priority it will be given back, and than any waiter. */
  lemma Safety(w: World, run: seq<Step>)
    requires Start(w) && Inv(w) && Legal(w, run)
    ensures var z := Run(w, run).m; var base := Run(w, run).base; var net := Run(w, run).net;
            && (z.owner == NOBODY <==> z.value == 1) && (z.owner == NOBODY <==> z.hold == 0) && z.value <= 1
            && (z.owner == NOBODY ==> z.waiters == [])
            && |z.cur| == |base| == |net|
            && (forall t :: 0 <= t < |net| ==> net[t] == if t == z.owner then z.hold else 0)
            && (forall t :: 0 <= t < |base| ==> z.cur[t] <= base[t] && (t != z.owner ==> z.cur[t] == base[t]))
            && (forall x :: x in z.waiters ==> 0 <= z.owner < |z.cur| && x < |z.cur| && z.cur[z.owner] <= z.cur[x])
  {
    var z := Run(w, run).m;
    if z.owner == NOBODY { assert z.waiters == []; }
  }

  lemma StartInv(w: World)
    requires Start(w)
    ensures Inv(w)
  {
  }

  // ------------------------------------------------------------ takes and releases

  /** Nobody but t has takes it has not released. */
  ghost predicate Alone(w: World, t: nat) {
    forall u: nat :: u < |w.net| && u != t ==> w.net[u] == 0
  }

  /** When a take succeeds, in terms of the takes not released yet: exactly when nobody else
      has any and the thread has fewer than the limit, and then it owns the mutex with one
      more.  It overflows exactly at the limit, and otherwise somebody else is inside: it is
      refused if it may not wait, and sleeps on the list if it may. */
  lemma TakeMeaning(w: World, t: nat, wait: bool)
    requires Inv(w) && Enabled(w, TakeIt(t, wait))
    ensures t < |w.net| && w.net[t] <= HOLD_MAX
    ensures var r, w' := TakeResult(w.m, t, wait), Apply(w, TakeIt(t, wait));
            && (r == Ok <==> Alone(w, t) && w.net[t] < HOLD_MAX)
            && (r == Ok ==> w'.m.owner == t && w'.m.hold == w.net[t] + 1 && w'.net == w.net[t := w.net[t] + 1]
                            && w'.m.waiters == w.m.waiters)
            && (r == Full <==> w.net[t] == HOLD_MAX)
            && (r == TimedOut <==> !Alone(w, t) && !wait)
            && (r == Full || r == TimedOut ==> w' == w)
            && (r == Suspended <==> !Alone(w, t) && wait)
            && (r == Suspended ==> t in w'.m.waiters && w'.net == w.net && w'.m.owner == w.m.owner != t)
  {
    hide Queue, Inherits, Place, PriosOf;
    if w.m.owner != NOBODY && w.m.owner != t { assert w.net[w.m.owner] > 0; }
    if TakeResult(w.m, t, wait) == Suspended {
      InsertMembers(w.m.waiters, Place(PriosOf(w.m.waiters, Take(w.m, t, wait).cur), w.m.cur[t], Prio), t);
    }
  }

  /** What a release does to the takes not released: without any it changes nothing, and
      only the last one gives the mutex up. */
  lemma ReleaseMeaning(w: World, t: nat)
    requires Inv(w) && Enabled(w, ReleaseIt(t))
    ensures t < |w.net|
    ensures var w' := Apply(w, ReleaseIt(t));
            && (w.net[t] == 0 ==> w' == w)
            && (w.net[t] > 0 ==> |w'.net| == |w.net| && w'.net[t] == w.net[t] - 1)
            && (w.net[t] > 1 ==> w'.m.owner == t && w'.m.hold == w.net[t] - 1 && w'.m.waiters == w.m.waiters)
            && (w.net[t] == 1 ==> w'.m.owner != t)
  {
    if w.m.owner == t && w.m.hold == 1 && |w.m.waiters| > 0 {
      HandoverQueue(w, t);
    }
  }

  /** Thread t, inside n times, stays inside along the run: it calls release only when it is
      inside more than once, and take only below the limit. */
  predicate StaysIn(n: nat, t: nat, run: seq<Step>)
    decreases |run|
  {
    n > 0 && (|run| > 0 ==>
      match run[0]
      case TakeIt(u, _) => if u == t then n < HOLD_MAX && StaysIn(n + 1, t, run[1..]) else StaysIn(n, t, run[1..])
      case ReleaseIt(u) => if u == t then n > 1 && StaysIn(n - 1, t, run[1..]) else StaysIn(n, t, run[1..])
      case ExpireIt(_) => StaysIn(n, t, run[1..]))
  }

  /** Takes less releases of thread t. */
  function Balance(t: nat, run: seq<Step>): int
    decreases |run|
  {
    if |run| == 0 then 0
    else Balance(t, run[1..]) + (match run[0]
                                 case TakeIt(u, _) => if u == t then 1 else 0
                                 case ReleaseIt(u) => if u == t then -1 else 0
                                 case ExpireIt(_) => 0)
  }

  lemma StepOthers(w: World, a: Step, t: nat)
    requires Inv(w) && Enabled(w, a) && w.m.owner == t && a.t != t
    ensures t < |w.net| && Apply(w, a).net == w.net && Apply(w, a).m.owner == t
    ensures a.TakeIt? ==> !TakeResult(w.m, a.t, a.wait).Ok?
  {
    match a {
      case TakeIt(u, wait) => TakeMeaning(w, u, wait);
      case ReleaseIt(u) => ReleaseMeaning(w, u);
      case ExpireIt(_) =>
    }
  }

  /** n nested takes need n releases: whatever the other threads do, a thread that has
      released fewer times than it took owns the mutex, with the difference as its hold
      count, and the mutex is given up by the release that makes the two equal. */
  lemma {:induction false} Nested(w: World, t: nat, run: seq<Step>)
    requires Inv(w) && t < |w.net| && Legal(w, run) && StaysIn(w.net[t], t, run)
    ensures var z := Run(w, run);
            && z.m.owner == t && z.m.hold == w.net[t] + Balance(t, run) > 0
            && (w.net[t] + Balance(t, run) == 1 && Enabled(z, ReleaseIt(t)) ==> Apply(z, ReleaseIt(t)).m.owner != t)
    decreases |run|
  {
    hide Queue, Inherits, Apply, Enabled;
    if |run| == 0 {
      if Enabled(w, ReleaseIt(t)) { ReleaseMeaning(w, t); }
    } else {
      var a, w' := run[0], Apply(w, run[0]);
      StepInv(w, a);
      if a.t != t {
        StepOthers(w, a, t);
      } else if a.TakeIt? {
        TakeMeaning(w, t, a.wait);
      } else if a.ReleaseIt? {
        ReleaseMeaning(w, t);
      } else {
        OwnerAwake(w, t);
      }
      Nested(w', t, run[1..]);
    }
  }

  lemma OwnerAwake(w: World, t: nat)
    requires Inv(w) && w.m.owner == t
    ensures !Enabled(w, ExpireIt(t))
  {
  }

  /** The last release gives the releaser its own priority back and hands the mutex to
      the waiter that is more urgent than every other, or as urgent and waiting longer;
      without waiters the mutex becomes free. */
  lemma Handover(w: World, t: nat)
    requires Inv(w) && Enabled(w, ReleaseIt(t)) && w.m.owner == t && w.m.hold == 1
    ensures var w' := Apply(w, ReleaseIt(t));
            && t < |w'.m.cur| && t < |w.base| && w'.m.cur[t] == w.base[t]
            && (w.m.waiters == [] ==> w'.m.owner == NOBODY)
            && (w.m.waiters != [] ==>
                 && w'.m.owner in w.m.waiters && w'.m.owner !in w'.m.waiters
                 && (forall x :: x in w.m.waiters && x != w'.m.owner ==> Before(w, w'.m.owner as nat, x)))
  {
    StepRelease(w, t);
    if w.m.waiters != [] {
      HandoverQueue(w, t);
      assert w.m.waiters == [w.m.waiters[0]] + w.m.waiters[1..];
    }
  }

  /** The owner runs at exactly the most urgent of its own and its waiters' priorities. */
  ghost predicate Exact(w: World) {
    w.m.owner != NOBODY && 0 <= w.m.owner < |w.m.cur| && w.m.owner < |w.base| ==>
      w.m.cur[w.m.owner] == Least(w.base[w.m.owner], PriosOf(w.m.waiters, w.m.cur))
  }

  /** The owner's priority is its own or some waiter's. */
  ghost predicate Justified(w: World)
    requires Sizes(w) && w.m.owner != NOBODY
  {
    || w.m.cur[w.m.owner] == w.base[w.m.owner]
    || exists x :: x in w.m.waiters && x < |w.m.cur| && w.m.cur[x] == w.m.cur[w.m.owner]
  }

  lemma ExactJustified(w: World)
    requires Inv(w) && w.m.owner != NOBODY
    ensures Exact(w) <==> Justified(w)
  {
    hide Holding;
    var own, ps := w.m.cur[w.m.owner], PriosOf(w.m.waiters, w.m.cur);
    forall p | p in ps ensures exists x :: x in w.m.waiters && x < |w.m.cur| && w.m.cur[x] == p {
      var i :| 0 <= i < |ps| && ps[i] == p;
      assert w.m.waiters[i] in w.m.waiters;
    }
    forall x | x in w.m.waiters ensures w.m.cur[x] in ps {
      var i :| 0 <= i < |w.m.waiters| && w.m.waiters[i] == x;
      assert ps[i] == w.m.cur[x];
    }
  }

  /** The timeout of the only waiter at a priority the owner has borrowed. */
  ghost predicate LosesWaiter(w: World, a: Step)
    requires Sizes(w)
  {
    && a.ExpireIt? && a.t < |w.m.cur| && w.m.owner != NOBODY
    && w.m.cur[w.m.owner] < w.base[w.m.owner]
    && w.m.cur[a.t] == w.m.cur[w.m.owner]
    && forall x :: x in w.m.waiters && x < |w.m.cur| && x != a.t ==> w.m.cur[x] != w.m.cur[w.m.owner]
  }

  /** The owner's last release, or a thread joining that is at least as urgent as it. */
  ghost predicate Regains(w: World, a: Step)
    requires Sizes(w)
  {
    match a
    case TakeIt(t, wait) =>
      t < |w.m.cur| && w.m.owner != NOBODY && w.m.owner != t && w.m.value == 0 && wait
      && w.m.cur[t] <= w.m.cur[w.m.owner]
    case ReleaseIt(t) => w.m.owner == t && w.m.hold == 1
    case ExpireIt(_) => false
  }

  /** Who waits after a timeout. */
  lemma ExpireMembers(w: World, t: nat)
    requires Inv(w) && Enabled(w, ExpireIt(t))
    ensures forall x :: x in Apply(w, ExpireIt(t)).m.waiters <==> x in w.m.waiters && x != t
  {
    hide Inherits, Holding;
    var ws := w.m.waiters;
    var k := IndexFrom(ws, t, 0);
    var r := RemoveAt(ws, k);
    RemoveRanked(ws, k, w.m.cur, w.arrival);
    forall x | x in ws && x != t ensures x in r {
      var i :| 0 <= i < |ws| && ws[i] == x;
      assert r[if i < k then i else i - 1] == x;
    }
  }

  lemma ExpireExact(w: World, t: nat)
    requires Inv(w) && Enabled(w, ExpireIt(t))
    ensures Exact(Apply(w, ExpireIt(t))) <==> Exact(w) && !LosesWaiter(w, ExpireIt(t))
  {
    hide Exact, Least, Ranked;
    var w' := Apply(w, ExpireIt(t));
    StepExpire(w, t);
    ExactJustified(w);
    ExactJustified(w');
    ExpireMembers(w, t);
  }

  lemma ReleaseExact(w: World, t: nat)
    requires Inv(w) && Enabled(w, ReleaseIt(t))
    ensures Exact(Apply(w, ReleaseIt(t))) <==> Exact(w) || Regains(w, ReleaseIt(t))
  {
    hide Exact, Least, Ranked;
    var w' := Apply(w, ReleaseIt(t));
    StepRelease(w, t);
    if w'.m.owner == NOBODY {
      FreeExact(w');
    } else {
      ExactJustified(w');
    }
    if w.m.owner == NOBODY {
      FreeExact(w);
    } else {
      ExactJustified(w);
    }
  }

  lemma FreeExact(w: World)
    requires w.m.owner == NOBODY
    ensures Exact(w)
  {
  }

  lemma SuspendExact(w: World, t: nat)
    requires Inv(w) && Enabled(w, TakeIt(t, true)) && TakeResult(w.m, t, true) == Suspended
    ensures Exact(Apply(w, TakeIt(t, true))) <==> Exact(w) || Regains(w, TakeIt(t, true))
  {
    hide Exact, Least, Ranked, Known, Place, InsertAt, PriosOf;
    var w' := Apply(w, TakeIt(t, true));
    StepSuspend(w, t);
    ExactJustified(w);
    ExactJustified(w');
    InsertMembers(w.m.waiters, Place(PriosOf(w.m.waiters, w'.m.cur), w'.m.cur[t], Prio), t);
  }

  lemma TakeExact(w: World, t: nat, wait: bool)
    requires Inv(w) && Enabled(w, TakeIt(t, wait)) && TakeResult(w.m, t, wait) != Suspended
    ensures Exact(Apply(w, TakeIt(t, wait))) <==> Exact(w) || Regains(w, TakeIt(t, wait))
  {
    hide Exact, Least, Ranked;
    var w' := Apply(w, TakeIt(t, wait));
    StepTake(w, t, wait);
    if w.m.owner == NOBODY {
      FreeExact(w);
    } else {
      ExactJustified(w);
    }
    ExactJustified(w');
  }

  /** Inheritance is an inequality.  A step leads to a state where it is exact if and only
      if it was exact and the step is not the timeout of the only waiter at the borrowed
      priority, or the step is the owner's last release or brings a waiter at least as
      urgent as the owner. */
  lemma StepExact(w: World, a: Step)
    requires Inv(w) && Enabled(w, a)
    ensures Exact(Apply(w, a)) <==> (Exact(w) && !LosesWaiter(w, a)) || Regains(w, a)
  {
    hide Exact, Inv, Apply, TakeResult;
    match a {
      case TakeIt(t, wait) =>
        if TakeResult(w.m, t, wait) == Suspended {
          SuspendWaits(w, t, wait);
          SuspendExact(w, t);
        } else {
          TakeExact(w, t, wait);
        }
      case ReleaseIt(t) => ReleaseExact(w, t);
      case ExpireIt(t) => ExpireExact(w, t);
    }
  }

  lemma SuspendWaits(w: World, t: nat, wait: bool)
    requires TakeResult(w.m, t, wait) == Suspended
    ensures wait
  {
  }

  /** Inheritance is exact in every state the run goes through. */
  ghost predicate ExactAlong(w: World, run: seq<Step>)
    requires Inv(w) && Legal(w, run)
    decreases |run|
  {
    Exact(w) && (|run| > 0 ==> (StepInv(w, run[0]); ExactAlong(Apply(w, run[0]), run[1..])))
  }

  ghost predicate NoneLost(w: World, run: seq<Step>)
    requires Inv(w) && Legal(w, run)
    decreases |run|
  {
    |run| > 0 ==> !LosesWaiter(w, run[0]) && (StepInv(w, run[0]); NoneLost(Apply(w, run[0]), run[1..]))
  }

  /** From a state where it is exact, inheritance stays exact along a run if and only if no
      step of the run is such a timeout. */
  lemma {:induction false} RunExact(w: World, run: seq<Step>)
    requires Inv(w) && Legal(w, run) && Exact(w)
    ensures ExactAlong(w, run) <==> NoneLost(w, run)
    decreases |run|
  {
    hide Queue, Inherits, Exact, Apply, Enabled, LosesWaiter, Regains;
    if |run| > 0 {
      var w' := Apply(w, run[0]);
      StepInv(w, run[0]);
      StepExact(w, run[0]);
      LossNotGain(w, run[0]);
      if Exact(w') {
        RunExact(w', run[1..]);
      } else {
        InexactHere(w', run[1..]);
      }
    }
  }

  lemma LossNotGain(w: World, a: Step)
    requires Sizes(w)
    ensures !(LosesWaiter(w, a) && Regains(w, a))
  {
  }

  lemma InexactHere(w: World, run: seq<Step>)
    requires Inv(w) && Legal(w, run) && !Exact(w)
    ensures !ExactAlong(w, run)
  {
  }

  // One run that loses exactness: thread 0 takes, thread 1 waits, thread 1 times out.

  const W0: World := World(State(1, 0, NOBODY, NO_PRIORITY, [], [20, 5]), [20, 5], [0, 0], [0, 0], 0, [])
  const W1: World := World(State(0, 1, 0, 20, [], [20, 5]), [20, 5], [1, 0], [0, 0], 0, [])
  const W2: World := World(State(0, 1, 0, 20, [1], [5, 5]), [20, 5], [1, 0], [0, 0], 1, [5])
  const W3: World := World(State(0, 1, 0, 20, [], [5, 5]), [20, 5], [1, 0], [0, 0], 1, [5])

  lemma FirstTakes()
    ensures Sizes(W0) && Enabled(W0, TakeIt(0, true)) && Apply(W0, TakeIt(0, true)) == W1
  {
  }

  lemma SecondWaits()
    ensures Sizes(W1) && Enabled(W1, TakeIt(1, true)) && Apply(W1, TakeIt(1, true)) == W2
  {
    assert Place([], 5, Prio) == 0;
  }

  lemma SecondExpires()
    ensures Sizes(W2) && Enabled(W2, ExpireIt(1)) && Apply(W2, ExpireIt(1)) == W3
  {
    assert IndexFrom([1], 1, 0) == 0;
  }

  /** A run from start-up after which the owner, with nobody waiting, still runs at a
      priority it only borrowed. */
  lemma BoostOutlivesWaiter()
    ensures Start(W0) && Inv(W0) && Legal(W0, [TakeIt(0, true), TakeIt(1, true), ExpireIt(1)])
    ensures var z := Run(W0, [TakeIt(0, true), TakeIt(1, true), ExpireIt(1)]);
            z.m.owner == 0 && z.m.waiters == [] && z.m.cur[0] == 5 && z.base[0] == 20 && !Exact(z)
  {
    hide Inv, Apply, Enabled, Sizes;
    StartInv(W0);
    FirstTakes();
    StepInv(W0, TakeIt(0, true));
    SecondWaits();
    StepInv(W1, TakeIt(1, true));
    SecondExpires();
    StepInv(W2, ExpireIt(1));
    var run := [TakeIt(0, true), TakeIt(1, true), ExpireIt(1)];
    RunThree(W0, W1, W2, W3, run[0], run[1], run[2]);
  }

  lemma RunThree(w0: World, w1: World, w2: World, w3: World, a: Step, b: Step, c: Step)
    requires Inv(w0) && Inv(w1) && Inv(w2)
    requires Enabled(w0, a) && Apply(w0, a) == w1
    requires Enabled(w1, b) && Apply(w1, b) == w2
    requires Enabled(w2, c) && Apply(w2, c) == w3
    ensures Legal(w0, [a, b, c]) && Run(w0, [a, b, c]) == w3
  {
    hide Inv, Apply, Enabled;
    StepInv(w0, a);
    StepInv(w1, b);
    StepInv(w2, c);
    assert [a, b, c][1..] == [b, c] && [b, c][1..] == [c] && [c][1..] == [];
    assert Legal(w3, []) && Run(w3, []) == w3;
    assert Legal(w2, [c]) && Run(w2, [c]) == w3;
    assert Legal(w1, [b, c]) && Run(w1, [b, c]) == w3;
  }
}
