/** Event sets (ipc.c): threads sleep until all, or any, of the bits they name are set. */
module EventSet {

  /** A 32-bit mask as the set of the positions of its one bits: `&` is intersection,
      `|` union, `& ~` difference, and 0 the empty set. */
  type Mask = set<nat>

  /** RT_EVENT_FLAG_AND, RT_EVENT_FLAG_OR and RT_EVENT_FLAG_CLEAR of event_info. */
  datatype Info = Info(and: bool, or: bool, clear: bool)

  /** A suspended thread with its event_set and event_info. */
  datatype Waiter = Waiter(tid: nat, bits: Mask, info: Info)

  /** A resumed thread and the bits it was given. */
  datatype Woken = Woken(w: Waiter, got: Mask)

  /** The test of rt_event_send and rt_event_recv; AND is looked at first. */
  predicate Meets(flags: Mask, bits: Mask, info: Info) {
    if info.and then bits * flags == bits
    else info.or && bits * flags != {}
  }

  /** The bits a thread whose test succeeds receives from a send. */
  function Got(flags: Mask, w: Waiter): Mask {
    if w.info.and then w.bits else w.bits * flags
  }

  function After(flags: Mask, w: Waiter): Mask {
    if w.info.clear then flags - Got(flags, w) else flags
  }

  /** What scanning the waiters in list order leaves and does; `aborted` is the
      -RT_EINVAL return on a waiter that chose neither AND nor OR. */
  datatype Scan = Scan(flags: Mask, kept: seq<Waiter>, woken: seq<Woken>, aborted: bool)

  predicate WellFormed(info: Info) {
    info.and || info.or
  }

  function ScanAll(flags: Mask, ws: seq<Waiter>): (r: Scan)
    decreases |ws|
  {
    if |ws| == 0 then Scan(flags, [], [], false)
    else if !WellFormed(ws[0].info) then Scan(flags, ws, [], true)
    else if Meets(flags, ws[0].bits, ws[0].info) then
      var rest := ScanAll(After(flags, ws[0]), ws[1..]);
      rest.(woken := [Woken(ws[0], Got(flags, ws[0]))] + rest.woken)
    else
      var rest := ScanAll(flags, ws[1..]);
      rest.(kept := [ws[0]] + rest.kept)
  }

  /** Clearing waiters only shrink the mask. */
  lemma {:induction false} ScanShrinks(flags: Mask, ws: seq<Waiter>)
    ensures ScanAll(flags, ws).flags <= flags
    decreases |ws|
  {
    if |ws| > 0 {
      ScanShrinks(After(flags, ws[0]), ws[1..]);
      ScanShrinks(flags, ws[1..]);
    }
  }

  /** Index of the first waiter with neither flag, or |ws|. */
  function FirstMalformed(ws: seq<Waiter>): (n: nat)
    ensures n <= |ws| && (n < |ws| ==> !WellFormed(ws[n].info))
    ensures forall i :: 0 <= i < n ==> WellFormed(ws[i].info)
    decreases |ws|
  {
    if |ws| == 0 || !WellFormed(ws[0].info) then 0 else FirstMalformed(ws[1..]) + 1
  }

  /** Of the waiters in front of the first malformed one (all of them if there is none),
      nobody left on the list could have been woken by what is left in the mask, even
      though the mask shrank after it was looked at; the others are not looked at. */
  lemma {:induction false} ScanStrandsNobody(flags: Mask, ws: seq<Waiter>) returns (front: seq<Waiter>)
    ensures ScanAll(flags, ws).kept == front + ws[FirstMalformed(ws)..]
    ensures forall w :: w in front ==> w in ws && WellFormed(w.info) && !Meets(ScanAll(flags, ws).flags, w.bits, w.info)
    decreases |ws|
  {
    if |ws| == 0 || !WellFormed(ws[0].info) {
      front := [];
    } else if Meets(flags, ws[0].bits, ws[0].info) {
      front := ScanStrandsNobody(After(flags, ws[0]), ws[1..]);
    } else {
      front := ScanStrandsNobody(flags, ws[1..]);
      ScanShrinks(flags, ws[1..]);
      MeetsLess(ScanAll(flags, ws).flags, flags, ws[0].bits, ws[0].info);
      front := [ws[0]] + front;
    }
  }

  /** A smaller mask satisfies no more. */
  lemma MeetsLess(small: Mask, flags: Mask, bits: Mask, info: Info)
    requires small <= flags
    ensures Meets(small, bits, info) ==> Meets(flags, bits, info)
  {
    assert bits * small <= bits * flags;
  }

  /** The bits given to any woken thread were set when the scan began; an AND thread
      gets all it named, an OR thread some of those it named. */
  lemma {:induction false} ScanGives(flags: Mask, ws: seq<Waiter>)
    ensures forall x :: x in ScanAll(flags, ws).woken ==>
      && x.w in ws && x.got <= flags && x.got <= x.w.bits
      && (if x.w.info.and then x.got == x.w.bits else x.got != {})
    decreases |ws|
  {
    if |ws| > 0 {
      if Meets(flags, ws[0].bits, ws[0].info) {
        ScanGives(After(flags, ws[0]), ws[1..]);
      } else {
        ScanGives(flags, ws[1..]);
      }
    }
  }

  /** Bits taken by a clearing thread reach nobody behind it in the same send. */
  lemma {:induction false} ScanDisjoint(flags: Mask, ws: seq<Waiter>, i: nat, j: nat)
    requires i < j < |ScanAll(flags, ws).woken| && ScanAll(flags, ws).woken[i].w.info.clear
    ensures ScanAll(flags, ws).woken[i].got !! ScanAll(flags, ws).woken[j].got
    decreases |ws|
  {
    if Meets(flags, ws[0].bits, ws[0].info) {
      var next := After(flags, ws[0]);
      if i > 0 {
        ScanDisjoint(next, ws[1..], i - 1, j - 1);
      } else {
        ScanGives(next, ws[1..]);
        assert ScanAll(flags, ws).woken[j] == ScanAll(next, ws[1..]).woken[j - 1];
        assert ScanAll(next, ws[1..]).woken[j - 1] in ScanAll(next, ws[1..]).woken;
      }
    } else {
      ScanDisjoint(flags, ws[1..], i, j);
    }
  }

  /** The bits taken by the clearing threads among `woken`. */
  function Cleared(woken: seq<Woken>): Mask {
    if |woken| == 0 then {}
    else (if woken[0].w.info.clear then woken[0].got else {}) + Cleared(woken[1..])
  }

  /** No bit is lost or made: what remains and what clearing threads took are apart and
      together make up the mask that was scanned. */
  lemma {:induction false} ScanConserves(flags: Mask, ws: seq<Waiter>)
    ensures ScanAll(flags, ws).flags !! Cleared(ScanAll(flags, ws).woken)
    ensures ScanAll(flags, ws).flags + Cleared(ScanAll(flags, ws).woken) == flags
    decreases |ws|
  {
    if |ws| > 0 {
      if Meets(flags, ws[0].bits, ws[0].info) {
        var r := ScanAll(After(flags, ws[0]), ws[1..]);
        ScanConserves(After(flags, ws[0]), ws[1..]);
        assert ScanAll(flags, ws).woken[1..] == r.woken;
        assert Got(flags, ws[0]) <= flags;
      } else {
        ScanConserves(flags, ws[1..]);
      }
    }
  }

  lemma {:induction false} ClearedBit(woken: seq<Woken>, b: nat)
    ensures b in Cleared(woken) <==> exists x :: x in woken && x.w.info.clear && b in x.got
    decreases |woken|
  {
    if |woken| > 0 {
      ClearedBit(woken[1..], b);
      assert woken == [woken[0]] + woken[1..];
    }
  }

  /** Each woken thread is given exactly what it named out of what the clearing threads
      woken before it left. */
  lemma {:induction false} ScanGot(flags: Mask, ws: seq<Waiter>, i: nat)
    requires i < |ScanAll(flags, ws).woken|
    ensures var woken := ScanAll(flags, ws).woken;
            woken[i].got == woken[i].w.bits * (flags - Cleared(woken[..i]))
    decreases |ws|
  {
    var woken := ScanAll(flags, ws).woken;
    if Meets(flags, ws[0].bits, ws[0].info) {
      var next := After(flags, ws[0]);
      var rest := ScanAll(next, ws[1..]).woken;
      assert woken == [Woken(ws[0], Got(flags, ws[0]))] + rest;
      if i > 0 {
        ScanGot(next, ws[1..], i - 1);
        assert woken[..i][1..] == rest[..i - 1];
        assert flags - Cleared(woken[..i]) == next - Cleared(rest[..i - 1]);
      }
    } else {
      ScanGot(flags, ws[1..], i);
    }
  }

  /** `part` is `all` with some elements left out. */
  predicate Thinned(part: seq<Waiter>, all: seq<Waiter>)
    decreases |all|
  {
    if |all| == 0 then |part| == 0
    else (|part| > 0 && part[0] == all[0] && Thinned(part[1..], all[1..])) || Thinned(part, all[1..])
  }

  /** Those kept stay in list order, and the others are woken in list order. */
  lemma {:induction false} ScanInOrder(flags: Mask, ws: seq<Waiter>)
    ensures Thinned(ScanAll(flags, ws).kept, ws) && Thinned(WokenThreads(ScanAll(flags, ws).woken), ws)
    decreases |ws|
  {
    hide Meets, After, Got, WellFormed, WokenThreads;
    if |ws| == 0 || !WellFormed(ws[0].info) {
      NoneWoken();
      ThinnedAll(ws);
      ThinnedNone(ws);
    } else if Meets(flags, ws[0].bits, ws[0].info) {
      var rest := ScanAll(After(flags, ws[0]), ws[1..]);
      ScanInOrder(After(flags, ws[0]), ws[1..]);
      var x := Woken(ws[0], Got(flags, ws[0]));
      assert WokenThreads([x] + rest.woken)[1..] == WokenThreads(rest.woken);
    } else {
      ScanInOrder(flags, ws[1..]);
      assert ScanAll(flags, ws).kept[1..] == ScanAll(flags, ws[1..]).kept;
    }
  }

  lemma {:induction false} ThinnedAll(ws: seq<Waiter>)
    ensures Thinned(ws, ws)
    decreases |ws|
  {
    if |ws| > 0 { ThinnedAll(ws[1..]); }
  }

  lemma {:induction false} ThinnedNone(ws: seq<Waiter>)
    ensures Thinned([], ws)
    decreases |ws|
  {
    if |ws| > 0 { ThinnedNone(ws[1..]); }
  }

  /** Each waiter is either kept or woken. */
  lemma {:induction false} ScanSplits(flags: Mask, ws: seq<Waiter>)
    ensures var r := ScanAll(flags, ws);
            multiset(r.kept) + multiset(WokenThreads(r.woken)) == multiset(ws)
    decreases |ws|
  {
    hide Meets, After, Got, WellFormed, WokenThreads;
    if |ws| == 0 || !WellFormed(ws[0].info) {
      NoneWoken();
    } else {
      assert multiset(ws) == multiset{ws[0]} + multiset(ws[1..]) by { assert ws == [ws[0]] + ws[1..]; }
      if Meets(flags, ws[0].bits, ws[0].info) {
        ScanSplits(After(flags, ws[0]), ws[1..]);
        FirstWoken(Woken(ws[0], Got(flags, ws[0])), ScanAll(After(flags, ws[0]), ws[1..]).woken);
      } else {
        ScanSplits(flags, ws[1..]);
      }
    }
  }

  lemma NoneWoken()
    ensures WokenThreads([]) == []
  {
  }

  lemma FirstWoken(x: Woken, woken: seq<Woken>)
    ensures multiset(WokenThreads([x] + woken)) == multiset{x.w} + multiset(WokenThreads(woken))
  {
    assert WokenThreads([x] + woken) == [x.w] + WokenThreads(woken);
  }

  function WokenThreads(woken: seq<Woken>): (r: seq<Waiter>)
    ensures |r| == |woken| && forall i :: 0 <= i < |r| ==> r[i] == woken[i].w
  {
    seq(|woken|, i requires 0 <= i < |woken| => woken[i].w)
  }

  /** The scan stops early exactly when some waiter chose neither AND nor OR. */
  lemma {:induction false} ScanAborts(flags: Mask, ws: seq<Waiter>)
    ensures ScanAll(flags, ws).aborted <==> exists w :: w in ws && !WellFormed(w.info)
    decreases |ws|
  {
    if |ws| > 0 {
      assert ws[0] in ws;
      ScanAborts(flags, ws[1..]);
      ScanAborts(After(flags, ws[0]), ws[1..]);
      assert ws == [ws[0]] + ws[1..];
    }
  }

  // ------------------------------------------------------------ the event object

  datatype State = State(flags: Mask, waiters: seq<Waiter>)

  datatype Result = Ok(got: Mask) | Error | Invalid | TimedOut | Suspended

  function Send(s: State, bits: Mask): State {
    if bits == {} then s
    else var r := ScanAll(s.flags + bits, s.waiters); State(r.flags, r.kept)
  }

  /** rt_event_recv by thread t; `wait` is a non-zero timeout and k the place the wait
      list gives the thread. */
  function Recv(s: State, t: nat, bits: Mask, info: Info, wait: bool, k: nat): State
    requires k <= |s.waiters|
  {
    if bits == {} then s
    else if Meets(s.flags, bits, info) then
      if info.clear then s.(flags := s.flags - bits) else s
    else if !wait then s
    else s.(waiters := s.waiters[..k] + [Waiter(t, bits, info)] + s.waiters[k..])
  }

  function RecvResult(s: State, bits: Mask, info: Info, wait: bool): Result {
    if bits == {} then Error
    else if Meets(s.flags, bits, info) then Ok(s.flags * bits)
    else if !wait then TimedOut
    else Suspended
  }

  /** The threads that a send resumes. */
  function SendWoken(s: State, bits: Mask): seq<Woken> {
    if bits == {} then [] else ScanAll(s.flags + bits, s.waiters).woken
  }

  /** A send loses no bit and makes none up: what is set afterwards and what clearing
      threads were given are apart, and together are what was set and what was sent.  No
      thread is lost either. */
  lemma SendConserves(s: State, bits: Mask)
    ensures var z, woken := Send(s, bits), SendWoken(s, bits);
            && z.flags !! Cleared(woken) && z.flags + Cleared(woken) == s.flags + bits
            && multiset(z.waiters) + multiset(WokenThreads(woken)) == multiset(s.waiters)
  {
    ScanConserves(s.flags + bits, s.waiters);
    ScanSplits(s.flags + bits, s.waiters);
    NoneWoken();
  }

  /** A thread's test, bit by bit. */
  ghost predicate Granted(flags: Mask, bits: Mask, info: Info) {
    if info.and then forall b :: b in bits ==> b in flags
    else info.or && exists b :: b in bits && b in flags
  }

  lemma Overlap(bits: Mask, flags: Mask)
    ensures bits * flags != {} <==> exists b :: b in bits && b in flags
  {
    forall b | b in bits && b in flags ensures b in bits * flags {}
  }

  /** A receive that names some bit: it succeeds exactly when the named bits are all set
      (AND) or some are (OR), answers the named bits that are set, and clears the named
      bits exactly when it has CLEAR.  If it does not succeed no bit changes, and it is
      refused or sleeps with what it asked for, as it may not or may wait. */
  lemma RecvMeaning(s: State, t: nat, bits: Mask, info: Info, wait: bool, k: nat)
    requires k <= |s.waiters| && bits != {}
    ensures var z, r := Recv(s, t, bits, info, wait, k), RecvResult(s, bits, info, wait);
            && (r.Ok? <==> Granted(s.flags, bits, info))
            && (r.Ok? ==> z.waiters == s.waiters && (forall b :: b in r.got <==> b in bits && b in s.flags))
            && (r.Ok? ==> forall b :: b in z.flags <==> b in s.flags && !(info.clear && b in bits))
            && (!r.Ok? ==> z.flags == s.flags && r == if wait then Suspended else TimedOut)
            && (r == TimedOut ==> z == s)
            && (r == Suspended ==>
                  && |z.waiters| == |s.waiters| + 1 && z.waiters[k] == Waiter(t, bits, info)
                  && z.waiters[..k] + z.waiters[k + 1..] == s.waiters)
  {
    assert bits * s.flags == bits <==> bits <= s.flags;
    Overlap(bits, s.flags);
  }

  /** How far a send has got: the scan of the rest completes what was done so far. */
  ghost predicate Progress(f0: Mask, ws0: seq<Waiter>, flags: Mask, ws: seq<Waiter>, n: nat, woken: seq<Woken>) {
    n <= |ws| && var r := ScanAll(flags, ws[n..]);
    ScanAll(f0, ws0) == Scan(r.flags, ws[..n] + r.kept, woken + r.woken, r.aborted)
  }

  lemma ProgressStart(flags: Mask, ws: seq<Waiter>)
    ensures Progress(flags, ws, flags, ws, 0, [])
  {
    assert ws[0..] == ws;
  }

  lemma ProgressKept(f0: Mask, ws0: seq<Waiter>, flags: Mask, ws: seq<Waiter>, n: nat, woken: seq<Woken>)
    requires n < |ws| && Progress(f0, ws0, flags, ws, n, woken)
    requires WellFormed(ws[n].info) && !Meets(flags, ws[n].bits, ws[n].info)
    ensures Progress(f0, ws0, flags, ws, n + 1, woken)
  {
    hide Meets, WellFormed;
    assert ws[n..][1..] == ws[n + 1..];
    var rest := ScanAll(flags, ws[n + 1..]);
    assert ws[..n] + ([ws[n]] + rest.kept) == ws[..n + 1] + rest.kept;
  }

  lemma ProgressWoken(f0: Mask, ws0: seq<Waiter>, flags: Mask, ws: seq<Waiter>, n: nat, woken: seq<Woken>)
    requires n < |ws| && Progress(f0, ws0, flags, ws, n, woken)
    requires WellFormed(ws[n].info) && Meets(flags, ws[n].bits, ws[n].info)
    ensures Progress(f0, ws0, After(flags, ws[n]), ws[..n] + ws[n + 1..], n, woken + [Woken(ws[n], Got(flags, ws[n]))])
  {
    hide Meets, WellFormed, After, Got;
    var ws' := ws[..n] + ws[n + 1..];
    assert ws[n..][1..] == ws[n + 1..] && ws'[n..] == ws[n + 1..] && ws'[..n] == ws[..n];
    var rest := ScanAll(After(flags, ws[n]), ws[n + 1..]);
    var x := Woken(ws[n], Got(flags, ws[n]));
    assert woken + ([x] + rest.woken) == woken + [x] + rest.woken;
  }

  /** A scan that meets a malformed waiter stops there; one that meets none ends. */
  lemma ProgressEnd(f0: Mask, ws0: seq<Waiter>, flags: Mask, ws: seq<Waiter>, n: nat, woken: seq<Woken>)
    requires n <= |ws| && Progress(f0, ws0, flags, ws, n, woken) && (n < |ws| ==> !WellFormed(ws[n].info))
    ensures ScanAll(f0, ws0) == Scan(flags, ws, woken, n < |ws|)
  {
    assert ws[..n] + ws[n..] == ws;
  }

  class Event {
    var flags: Mask
    var waiters: seq<Waiter>

    /** rt_event_init */
    constructor ()
      ensures Abs() == State({}, [])
    {
      flags := {};
      waiters := [];
    }

    ghost function Abs(): State
      reads this
    {
      State(flags, waiters)
    }

    /** rt_event_send; `woken` are the resumed threads with their new event_set. */
    method SendBits(bits: Mask) returns (r: Result, woken: seq<Woken>)
      modifies this
      ensures Abs() == Send(old(Abs()), bits)
      ensures bits == {} ==> r == Error && woken == []
      ensures bits != {} ==>
        var scan := ScanAll(old(flags) + bits, old(waiters));
        woken == scan.woken && r == if scan.aborted then Invalid else Ok({})
      ensures flags !! Cleared(woken) && flags + Cleared(woken) == old(flags) + bits
      ensures multiset(waiters) + multiset(WokenThreads(woken)) == multiset(old(waiters))
    {
      hide ScanAll, Cleared, WokenThreads;
      SendConserves(Abs(), bits);
      woken := [];
      if bits == {} {
        return Error, [];
      }
      flags := flags + bits;
      ghost var f0, ws0 := flags, waiters;
      ProgressStart(flags, waiters);
      var n := 0;
      while n < |waiters|
        invariant n <= |waiters|
        invariant Progress(f0, ws0, flags, waiters, n, woken)
        decreases |waiters| - n
      {
        var thread := waiters[n];
        var status := false;
        if thread.info.and {
          status := thread.bits * flags == thread.bits;
        } else if thread.info.or {
          status := thread.bits * flags != {};
        } else {
          ProgressEnd(f0, ws0, flags, waiters, n, woken);
          return Invalid, woken;
        }
        if status {
          var got := if thread.info.and then thread.bits else thread.bits * flags;
          ProgressWoken(f0, ws0, flags, waiters, n, woken);
          if thread.info.clear {
            flags := flags - got;
          }
          woken := woken + [Woken(thread, got)];
          waiters := waiters[..n] + waiters[n + 1..];
        } else {
          ProgressKept(f0, ws0, flags, waiters, n, woken);
          n := n + 1;
        }
      }
      ProgressEnd(f0, ws0, flags, waiters, n, woken);
      return Ok({}), woken;
    }

    /** The section of rt_event_recv. */
    method RecvBits(thread: nat, bits: Mask, option: Info, timeout: int, k: nat) returns (r: Result)
      requires k <= |waiters|
      modifies this
      ensures Abs() == Recv(old(Abs()), thread, bits, option, timeout != 0, k)
      ensures r == RecvResult(old(Abs()), bits, option, timeout != 0)
      ensures bits != {} ==> (r.Ok? <==> Granted(old(flags), bits, option))
      ensures r.Ok? ==> r.got == bits * old(flags) && waiters == old(waiters)
      ensures flags == if r.Ok? && option.clear then old(flags) - bits else old(flags)
    {
      if bits != {} { RecvMeaning(Abs(), thread, bits, option, timeout != 0, k); }
      if bits == {} {
        return Error;
      }
      var status := false;
      if option.and {
        status := flags * bits == bits;
      } else if option.or {
        status := flags * bits != {};
      }
      assert flags * bits == bits * flags;
      if status {
        r := Ok(flags * bits);
        if option.clear {
          flags := flags - bits;
        }
      } else if timeout == 0 {
        r := TimedOut;
      } else {
        waiters := waiters[..k] + [Waiter(thread, bits, option)] + waiters[k..];
        r := Suspended;
      }
    }
  }

  // ------------------------------------------------------------ all runs

  datatype Step =
    | SendStep(bits: Mask)
    | RecvStep(t: nat, bits: Mask, info: Info, wait: bool, k: nat)
    | TimeoutStep(k: nat)
    | ResetStep

  /** A suspended thread does not call anything. */
  ghost predicate Awake(s: State, t: nat) {
    forall w :: w in s.waiters ==> w.tid != t
  }

  ghost predicate Enabled(s: State, a: Step) {
    match a
    case SendStep(_) => true
    case RecvStep(t, _, _, _, k) => Awake(s, t) && k <= |s.waiters|
    case TimeoutStep(k) => k < |s.waiters|
    case ResetStep => true
  }

  function Apply(s: State, a: Step): State
    requires Enabled(s, a)
  {
    match a
    case SendStep(bits) => Send(s, bits)
    case RecvStep(t, bits, info, wait, k) => Recv(s, t, bits, info, wait, k)
    case TimeoutStep(k) => s.(waiters := s.waiters[..k] + s.waiters[k + 1..])
    case ResetStep => State({}, [])
  }

  /** Not a receive that names neither AND nor OR and is ready to wait.  The assertion
      against it in rt_event_recv is empty unless debugging is configured. */
  predicate Proper(a: Step) {
    a.RecvStep? && a.bits != {} && a.wait ==> WellFormed(a.info)
  }

  predicate AllProper(run: seq<Step>) {
    forall i :: 0 <= i < |run| ==> Proper(run[i])
  }

  /** The thread asked for AND or OR, and has it, and still sleeps. */
  predicate Stranded(flags: Mask, w: Waiter) {
    WellFormed(w.info) && Meets(flags, w.bits, w.info)
  }

  ghost predicate NobodyStranded(s: State) {
    forall w :: w in s.waiters ==> !Stranded(s.flags, w)
  }

  ghost predicate Settled(s: State) {
    forall w :: w in s.waiters ==> WellFormed(w.info) && !Meets(s.flags, w.bits, w.info)
  }

  lemma StepSettled(s: State, a: Step)
    requires Settled(s) && Enabled(s, a) && Proper(a)
    ensures Settled(Apply(s, a))
  {
    match a {
      case SendStep(bits) =>
        if bits != {} {
          var front := ScanStrandsNobody(s.flags + bits, s.waiters);
          AllWellFormed(s.waiters);
          assert ScanAll(s.flags + bits, s.waiters).kept == front;
        }
      case RecvStep(t, bits, info, wait, k) =>
        assert s.waiters == s.waiters[..k] + s.waiters[k..];
        forall w | w in s.waiters ensures !Meets(s.flags - bits, w.bits, w.info) {
          MeetsLess(s.flags - bits, s.flags, w.bits, w.info);
        }
      case TimeoutStep(k) =>
      case ResetStep =>
    }
  }

  lemma AllWellFormed(ws: seq<Waiter>)
    requires forall w :: w in ws ==> WellFormed(w.info)
    ensures FirstMalformed(ws) == |ws| && ws[|ws|..] == []
  {
  }

  ghost predicate Legal(s: State, run: seq<Step>)
    decreases |run|
  {
    |run| > 0 ==> Enabled(s, run[0]) && Legal(Apply(s, run[0]), run[1..])
  }

  ghost function Run(s: State, run: seq<Step>): State
    requires Legal(s, run)
    decreases |run|
  {
    if |run| == 0 then s else Run(Apply(s, run[0]), run[1..])
  }

  /** After any sequence of sends, proper receives, timeouts and resets, nobody sleeps on
      bits that are already there. */
  lemma {:induction false} RunStrandsNobody(s: State, run: seq<Step>)
    requires Settled(s) && Legal(s, run) && AllProper(run)
    ensures Settled(Run(s, run)) && NobodyStranded(Run(s, run))
    decreases |run|
  {
    if |run| > 0 {
      StepSettled(s, run[0]);
      RunStrandsNobody(Apply(s, run[0]), run[1..]);
    }
  }

  /** A thread that is not waiting. */
  ghost function Another(ws: seq<Waiter>): (t: nat)
    ensures forall w :: w in ws ==> w.tid < t
    decreases |ws|
  {
    if |ws| == 0 then 0
    else
      var t := Another(ws[1..]);
      assert ws == [ws[0]] + ws[1..];
      if ws[0].tid < t then t else ws[0].tid + 1
  }

  const TAKE_ANY: Info := Info(false, true, true)    // OR | CLEAR
  const TAKE_ALL: Info := Info(true, false, false)   // AND

  lemma RunCons(s: State, a: Step, rest: seq<Step>)
    requires Enabled(s, a) && Legal(Apply(s, a), rest)
    ensures Legal(s, [a] + rest) && Run(s, [a] + rest) == Run(Apply(s, a), rest)
  {
    assert ([a] + rest)[1..] == rest;
  }

  /** With a malformed waiter at the head, one well-formed thread joins behind it, its bit
      is sent, and it sleeps on. */
  lemma HeadStrands(s: State) returns (run: seq<Step>)
    requires |s.waiters| > 0 && !WellFormed(s.waiters[0].info)
    ensures Legal(s, run) && AllProper(run) && !NobodyStranded(Run(s, run))
  {
    hide ScanAll;
    var t := Another(s.waiters);
    var n := |s.waiters|;
    var clear := RecvStep(t, {0}, TAKE_ANY, false, 0);
    var s1 := Recv(s, t, {0}, TAKE_ANY, false, 0);
    if 0 in s.flags {
      assert 0 in {0} * s.flags;
    } else {
      assert s.flags - {0} == s.flags;
    }
    assert s1 == State(s.flags - {0}, s.waiters);
    var join := RecvStep(t, {0}, TAKE_ALL, true, n);
    var w := Waiter(t, {0}, TAKE_ALL);
    var s2 := Recv(s1, t, {0}, TAKE_ALL, true, n);
    assert s2 == State(s1.flags, s.waiters + [w]);
    var s3 := Send(s2, {0});
    HeadAborts(s2.flags + {0}, s2.waiters);
    assert w in s3.waiters && Stranded(s3.flags, w);
    RunCons(s2, SendStep({0}), []);
    RunCons(s1, join, [SendStep({0})]);
    RunCons(s, clear, [join] + [SendStep({0})]);
    run := [clear] + ([join] + ([SendStep({0})] + []));
  }

  lemma HeadAborts(flags: Mask, ws: seq<Waiter>)
    requires |ws| > 0 && !WellFormed(ws[0].info)
    ensures ScanAll(flags, ws) == Scan(flags, ws, [], true)
  {
  }

  /** Wherever a malformed waiter sits, proper steps alone strand a well-formed thread. */
  lemma {:induction false} MalformedStrands(s: State, k: nat) returns (run: seq<Step>)
    requires k < |s.waiters| && !WellFormed(s.waiters[k].info)
    ensures Legal(s, run) && AllProper(run) && !NobodyStranded(Run(s, run))
    decreases k
  {
    if k == 0 {
      run := HeadStrands(s);
    } else {
      var s1 := Apply(s, TimeoutStep(0));
      var rest := MalformedStrands(s1, k - 1);
      RunCons(s, TimeoutStep(0), rest);
      run := [TimeoutStep(0)] + rest;
    }
  }

  /** However the threads go on with proper steps, nobody is ever stranded. */
  ghost predicate Safe(s: State) {
    forall run: seq<Step> :: Legal(s, run) && AllProper(run) ==> NobodyStranded(Run(s, run))
  }

  /** The states from which nobody can be stranded are exactly the settled ones. */
  lemma SafeExact(s: State)
    ensures Safe(s) <==> Settled(s)
  {
    hide Legal, Run;
    if Settled(s) {
      forall run: seq<Step> | Legal(s, run) && AllProper(run) ensures NobodyStranded(Run(s, run)) {
        RunStrandsNobody(s, run);
      }
    } else {
      var w :| w in s.waiters && (!WellFormed(w.info) || Meets(s.flags, w.bits, w.info));
      var k :| 0 <= k < |s.waiters| && s.waiters[k] == w;
      if WellFormed(w.info) {
        StrandedNow(s, w);
      } else {
        var run := MalformedStrands(s, k);
      }
    }
  }

  lemma StrandedNow(s: State, w: Waiter)
    requires w in s.waiters && Stranded(s.flags, w)
    ensures !Safe(s)
  {
    assert Legal(s, []) && AllProper([]) && Run(s, []) == s;
  }

  /** A step from a settled state leaves nobody ever to be stranded if and only if it is
      not a receive that names neither AND nor OR and is ready to wait. */
  lemma StepExact(s: State, a: Step)
    requires Settled(s) && Enabled(s, a)
    ensures Safe(Apply(s, a)) <==> Proper(a)
  {
    hide Safe, Settled;
    SafeExact(Apply(s, a));
    if Proper(a) {
      StepSettled(s, a);
    } else {
      ImproperUnsettles(s, a);
    }
  }

  lemma ImproperUnsettles(s: State, a: Step)
    requires Enabled(s, a) && !Proper(a)
    ensures !Settled(Apply(s, a))
  {
    assert Apply(s, a).waiters[a.k] == Waiter(a.t, a.bits, a.info);
  }

  /** rt_event_init */
  const START: State := State({}, [])

  /** From a new event: thread 1 waits for neither AND nor OR, thread 2 for bit 0 behind
      it, bit 0 is sent, and thread 2 sleeps on. */
  lemma StrandingRun()
    ensures var neither, both := Info(false, false, true), Info(true, false, false);
            var run := [RecvStep(1, {0}, neither, true, 0), RecvStep(2, {0}, both, true, 1), SendStep({0})];
            && Legal(START, run)
            && Run(START, run) == State({0}, [Waiter(1, {0}, neither), Waiter(2, {0}, both)])
            && Stranded({0}, Waiter(2, {0}, both))
  {
    hide ScanAll;
    var neither, both := Info(false, false, true), Info(true, false, false);
    var bad, good := Waiter(1, {0}, neither), Waiter(2, {0}, both);
    var a, b, c := RecvStep(1, {0}, neither, true, 0), RecvStep(2, {0}, both, true, 1), SendStep({0});
    var s1, s2 := State({}, [bad]), State({}, [bad, good]);
    assert Apply(START, a) == s1;
    assert Apply(s1, b) == s2;
    HeadAborts({0}, [bad, good]);
    assert {} + {0} == {0};
    assert Apply(s2, c) == State({0}, [bad, good]);
    RunCons(s2, c, []);
    RunCons(s1, b, [c] + []);
    RunCons(START, a, [b] + ([c] + []));
    assert [a, b, c] == [a] + ([b] + ([c] + []));
  }

  // ------------------------------------------------------------ the life of a bit

  /** The step takes bit b away: a send gives it to a clearing thread, a clearing receive
      that succeeds names it, or the event is reset. */
  ghost predicate Takes(s: State, a: Step, b: nat) {
    match a
    case SendStep(bits) => exists x :: x in SendWoken(s, bits) && x.w.info.clear && b in x.got
    case RecvStep(_, bits, info, _, _) => info.clear && b in bits && Granted(s.flags, bits, info)
    case TimeoutStep(_) => false
    case ResetStep => true
  }

  /** A bit is set after a step exactly when it was set or is sent, and is not taken. */
  lemma StepBit(s: State, a: Step, b: nat)
    requires Enabled(s, a)
    ensures b in Apply(s, a).flags <==>
              (b in s.flags || (a.SendStep? && b in a.bits)) && !Takes(s, a, b)
  {
    match a {
      case SendStep(bits) =>
        SendConserves(s, bits);
        ClearedBit(SendWoken(s, bits), b);
      case RecvStep(t, bits, info, wait, k) =>
        if bits != {} { RecvMeaning(s, t, bits, info, wait, k); }
      case TimeoutStep(_) =>
      case ResetStep =>
    }
  }

  ghost predicate NeverTaken(s: State, run: seq<Step>, b: nat)
    requires Legal(s, run)
    decreases |run|
  {
    |run| > 0 ==> !Takes(s, run[0], b) && NeverTaken(Apply(s, run[0]), run[1..], b)
  }

  /** Some send of the run sends b, and from then on, that send included, b is not taken. */
  ghost predicate SentAndKept(s: State, run: seq<Step>, b: nat)
    requires Legal(s, run)
    decreases |run|
  {
    && |run| > 0
    && ((run[0].SendStep? && b in run[0].bits && NeverTaken(s, run, b))
        || SentAndKept(Apply(s, run[0]), run[1..], b))
  }

  /** A bit that is set, or is sent, stays set until it is taken; and there is no other way
      for a bit to be set. */
  lemma {:induction false} BitLives(s: State, run: seq<Step>, b: nat)
    requires Legal(s, run)
    ensures b in Run(s, run).flags <==> (b in s.flags && NeverTaken(s, run, b)) || SentAndKept(s, run, b)
    decreases |run|
  {
    hide Apply, Enabled, Takes;
    if |run| > 0 {
      StepBit(s, run[0], b);
      BitLives(Apply(s, run[0]), run[1..], b);
    }
  }
}
