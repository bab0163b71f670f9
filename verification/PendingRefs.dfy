/** The retry queue for imports whose target was not indexed yet. Times are in hours. */
module PendingRefs {

  const PENDING_TTL := 24.0
  const MAX_ATTEMPTS := 5

  datatype PendingRef = PendingRef(
    source: string, target: string, pathHint: string, repo: string, attemptedAt: real, attemptCount: int)

  /** A list entry as read back: text that does not validate, or a reference. */
  datatype Entry = Malformed(raw: string) | Ref(ref: PendingRef)

  datatype Answer = Resolved | Unresolved | Raises

  /** The outside world of one sweep: how resolving entry i ends, and the clock when i is checked and restamped. */
  datatype World = World(answer: nat -> Answer, checkedAt: nat -> real, stampedAt: nat -> real)

  type Lists = map<string, seq<Entry>>

  function GetOrEmpty(lists: Lists, repo: string): seq<Entry> {
    if repo in lists then lists[repo] else []
  }

  function Push(lists: Lists, repo: string, e: Entry): Lists {
    lists[repo := GetOrEmpty(lists, repo) + [e]]
  }

  predicate IsExpired(ref: PendingRef, now: real) {
    ref.attemptCount > MAX_ATTEMPTS || now - ref.attemptedAt > PENDING_TTL
  }

  // ---- What one sweep does to each entry ----

  predicate IsLive(w: World, e: Entry, i: nat) {
    e.Ref? && !IsExpired(e.ref, w.checkedAt(i))
  }

  function Retried(w: World, ref: PendingRef, i: nat): PendingRef {
    ref.(attemptCount := ref.attemptCount + 1, attemptedAt := w.stampedAt(i))
  }

  predicate IsRequeued(w: World, e: Entry, i: nat) {
    IsLive(w, e, i) && w.answer(i) == Unresolved
  }

  /** The first entry whose resolution raises, or the end. */
  function StopAt(w: World, entries: seq<Entry>, i: nat): (n: nat)
    requires i <= |entries|
    ensures i <= n <= |entries|
    ensures forall k :: i <= k < n ==> !(IsLive(w, entries[k], k) && w.answer(k) == Raises)
    ensures n < |entries| ==> IsLive(w, entries[n], n) && w.answer(n) == Raises
    decreases |entries| - i
  {
    if i == |entries| || (IsLive(w, entries[i], i) && w.answer(i) == Raises) then i else StopAt(w, entries, i + 1)
  }

  /** The entries pushed back among the first n. */
  function Requeues(w: World, entries: seq<Entry>, n: nat): seq<Entry>
    requires n <= |entries|
  {
    if n == 0 then [] else
      Requeues(w, entries, n - 1)
      + if IsRequeued(w, entries[n-1], n - 1) then [Ref(Retried(w, entries[n-1].ref, n - 1))] else []
  }

  /** A reference goes back to the list of its own repository. */
  function PushEach(lists: Lists, es: seq<Entry>): Lists {
    if es == [] then lists else
      var front, e := PushEach(lists, es[..|es|-1]), es[|es|-1];
      if e.Ref? then Push(front, e.ref.repo, e) else front
  }

  function PushRest(lists: Lists, repo: string, es: seq<Entry>): Lists {
    if es == [] then lists else Push(PushRest(lists, repo, es[..|es|-1]), repo, es[|es|-1])
  }

  class Store {
    var lists: Lists

    constructor ()
      ensures lists == map[]
    {
      lists := map[];
    }

    method PushPending(ref: PendingRef)
      modifies this
      ensures lists == Push(old(lists), ref.repo, Ref(ref))
      ensures GetOrEmpty(lists, ref.repo) == GetOrEmpty(old(lists), ref.repo) + [Ref(ref)]
      ensures lists - {ref.repo} == old(lists) - {ref.repo} && (AllHome(old(lists)) ==> AllHome(lists))
    {
      lists := Push(lists, ref.repo, Ref(ref));
    }

    /** Puts the entries from i on back as they were. */
    method RequeueRest(repo: string, entries: seq<Entry>, i: nat)
      requires i <= |entries|
      modifies this
      ensures lists == PushRest(old(lists), repo, entries[i..])
    {
      hide Push;
      assert entries[i..i] == [];
      for j := i to |entries|
        invariant lists == PushRest(old(lists), repo, entries[i..j])
      {
        assert entries[i..j+1][..j-i] == entries[i..j];
        lists := Push(lists, repo, entries[j]);
      }
      assert entries[i..|entries|] == entries[i..];
    }

    method RetryPending(repo: string, w: World)
      modifies this
      ensures var entries := GetOrEmpty(old(lists), repo);
        var n := StopAt(w, entries, 0);
        lists == PushRest(PushEach(old(lists) - {repo}, Requeues(w, entries, n)), repo, entries[n..])
    {
      hide Push;
      hide PushRest;
      hide IsExpired;
      var entries := GetOrEmpty(lists, repo);
      lists := lists - {repo};
      ghost var cleared := lists;
      NothingPushed(cleared, repo);
      for i := 0 to |entries|
        invariant StopAt(w, entries, 0) == StopAt(w, entries, i)
        invariant lists == PushEach(cleared, Requeues(w, entries, i))
      {
        RequeuesMore(cleared, w, entries, i);
        match entries[i] {
          case Malformed(_) =>
          case Ref(ref) =>
            if !IsExpired(ref, w.checkedAt(i)) {
              match w.answer(i)
              case Raises =>
                RequeueRest(repo, entries, i);
                return;
              case Resolved =>
              case Unresolved => PushPending(Retried(w, ref, i));
            }
        }
      }
      assert entries[|entries|..] == [];
      NothingPushed(lists, repo);
    }
  }

  lemma NothingPushed(lists: Lists, repo: string)
    ensures PushEach(lists, []) == lists == PushRest(lists, repo, [])
  {
  }

  lemma RequeuesMore(lists: Lists, w: World, entries: seq<Entry>, i: nat)
    requires i < |entries|
    ensures PushEach(lists, Requeues(w, entries, i + 1))
         == if IsRequeued(w, entries[i], i)
            then Push(PushEach(lists, Requeues(w, entries, i)), entries[i].ref.repo, Ref(Retried(w, entries[i].ref, i)))
            else PushEach(lists, Requeues(w, entries, i))
  {
    if IsRequeued(w, entries[i], i) {
      PushEachMore(lists, Requeues(w, entries, i), Ref(Retried(w, entries[i].ref, i)));
    } else {
      assert Requeues(w, entries, i) + [] == Requeues(w, entries, i);
    }
  }

  lemma PushEachMore(lists: Lists, es: seq<Entry>, e: Entry)
    requires e.Ref?
    ensures PushEach(lists, es + [e]) == Push(PushEach(lists, es), e.ref.repo, e)
  {
  }

  // ---- One list ----

  /** What a sweep leaves in a list that nothing else touches. */
  function Sweep(w: World, entries: seq<Entry>): seq<Entry> {
    var n := StopAt(w, entries, 0);
    Requeues(w, entries, n) + entries[n..]
  }

  /** References only ever sit in the list of their own repository. */
  ghost predicate AllHome(lists: Lists) {
    forall repo, i :: repo in lists && 0 <= i < |lists[repo]| && lists[repo][i].Ref? ==> lists[repo][i].ref.repo == repo
  }

  ghost predicate RefsOf(es: seq<Entry>, repo: string) {
    forall i :: 0 <= i < |es| ==> es[i].Ref? && es[i].ref.repo == repo
  }

  lemma {:induction false} PushEachAtHome(lists: Lists, repo: string, es: seq<Entry>)
    requires RefsOf(es, repo)
    ensures GetOrEmpty(PushEach(lists, es), repo) == GetOrEmpty(lists, repo) + es
    ensures PushEach(lists, es) - {repo} == lists - {repo}
  {
    if es != [] {
      PushEachAtHome(lists, repo, es[..|es|-1]);
      assert es == es[..|es|-1] + [es[|es|-1]];
    }
  }

  lemma {:induction false} PushRestAtHome(lists: Lists, repo: string, es: seq<Entry>)
    ensures GetOrEmpty(PushRest(lists, repo, es), repo) == GetOrEmpty(lists, repo) + es
    ensures PushRest(lists, repo, es) - {repo} == lists - {repo}
  {
    if es != [] {
      PushRestAtHome(lists, repo, es[..|es|-1]);
      assert es == es[..|es|-1] + [es[|es|-1]];
    }
  }

  /** The retry method sweeps its own list and leaves every other list alone. */
  lemma RetrySweepsOneList(w: World, lists: Lists, repo: string)
    requires AllHome(lists)
    ensures var entries := GetOrEmpty(lists, repo);
      var n := StopAt(w, entries, 0);
      var lists' := PushRest(PushEach(lists - {repo}, Requeues(w, entries, n)), repo, entries[n..]);
      && GetOrEmpty(lists', repo) == Sweep(w, entries)
      && lists' - {repo} == lists - {repo}
      && AllHome(lists')
  {
    var entries := GetOrEmpty(lists, repo);
    var n := StopAt(w, entries, 0);
    var kept := Requeues(w, entries, n);
    SweepStaysHome(w, entries, repo);
    hide StopAt;
    hide Requeues;
    SweptList(lists, repo, kept, entries[n..]);
    HomeAgain(lists, PushRest(PushEach(lists - {repo}, kept), repo, entries[n..]), repo);
  }

  lemma SweptList(lists: Lists, repo: string, kept: seq<Entry>, rest: seq<Entry>)
    requires RefsOf(kept, repo)
    ensures var lists' := PushRest(PushEach(lists - {repo}, kept), repo, rest);
      GetOrEmpty(lists', repo) == kept + rest && lists' - {repo} == lists - {repo}
  {
    hide PushRest;
    hide PushEach;
    PushEachAtHome(lists - {repo}, repo, kept);
    PushRestAtHome(PushEach(lists - {repo}, kept), repo, rest);
    assert [] + kept == kept;
    assert lists - {repo} - {repo} == lists - {repo};
  }

  ghost predicate IsHome(es: seq<Entry>, repo: string) {
    forall i :: 0 <= i < |es| && es[i].Ref? ==> es[i].ref.repo == repo
  }

  lemma SweepStaysHome(w: World, entries: seq<Entry>, repo: string)
    requires IsHome(entries, repo)
    ensures IsHome(Sweep(w, entries), repo)
    ensures RefsOf(Requeues(w, entries, StopAt(w, entries, 0)), repo)
  {
    var n := StopAt(w, entries, 0);
    var idx := RequeuesAreExact(w, entries, n);
    var kept := Requeues(w, entries, n);
    forall i | 0 <= i < |kept| ensures kept[i].Ref? && kept[i].ref.repo == repo {
      assert kept[i] == Ref(Retried(w, entries[idx[i]].ref, idx[i]));
    }
    forall i | |kept| <= i < |Sweep(w, entries)| ensures Sweep(w, entries)[i] == entries[i - |kept| + n] {
    }
  }

  lemma HomeAgain(lists: Lists, lists': Lists, repo: string)
    requires AllHome(lists) && lists' - {repo} == lists - {repo} && IsHome(GetOrEmpty(lists', repo), repo)
    ensures AllHome(lists')
  {
    forall r, i | r in lists' && 0 <= i < |lists'[r]| && lists'[r][i].Ref? ensures lists'[r][i].ref.repo == r {
      if r != repo {
        assert r in lists' - {repo};
        assert r in lists && lists[r] == (lists - {repo})[r] == lists'[r];
      }
    }
  }

  ghost predicate Rising(idx: seq<nat>, n: nat) {
    (forall j, k :: 0 <= j < k < |idx| ==> idx[j] < idx[k]) && (forall k :: 0 <= k < |idx| ==> idx[k] < n)
  }

  /** A reference with at most five attempts behind it, the last at most 24 hours ago. */
  predicate InTime(w: World, e: Entry, i: nat) {
    e.Ref? && e.ref.attemptCount <= 5 && w.checkedAt(i) - e.ref.attemptedAt <= 24.0
  }

  /** What a sweep pushes back for a reference: one attempt more and a new time. */
  ghost predicate IsRetry(e: Entry, e': Entry, at: real) {
    && e.Ref? && e'.Ref?
    && e'.ref == PendingRef(
         e.ref.source, e.ref.target, e.ref.pathHint, e.ref.repo, at, e.ref.attemptCount + 1)
  }

  /** A sweep resolves in-time references alone, stopping at the first whose resolution raises. */
  lemma StopsAtFirstRaise(w: World, entries: seq<Entry>)
    ensures var n := StopAt(w, entries, 0);
      && n <= |entries| && (n < |entries| ==> InTime(w, entries[n], n) && w.answer(n) == Raises)
      && forall k: nat :: k < n && InTime(w, entries[k], k) ==> w.answer(k) != Raises
  {
    forall k: nat | k < StopAt(w, entries, 0) && InTime(w, entries[k], k) ensures w.answer(k) != Raises {
      assert IsLive(w, entries[k], k);
    }
  }

  /**
   Nothing is lost or doubled: what is pushed back is, in the original order, exactly the unresolved references in time,
   each once and one attempt further. All others were malformed, too old, tried too often or resolved.
   */
  lemma SweptIs(w: World, entries: seq<Entry>, n: nat) returns (idx: seq<nat>)
    requires n <= |entries|
    ensures Rising(idx, n) && |Requeues(w, entries, n)| == |idx|
    ensures forall k :: 0 <= k < |idx| ==>
      && InTime(w, entries[idx[k]], idx[k]) && w.answer(idx[k]) == Unresolved
      && IsRetry(entries[idx[k]], Requeues(w, entries, n)[k], w.stampedAt(idx[k]))
    ensures forall i: nat :: i < n && InTime(w, entries[i], i) && w.answer(i) == Unresolved ==> i in idx
  {
    idx := RequeuesAreExact(w, entries, n);
    hide Requeues;
    forall i: nat | i < n && InTime(w, entries[i], i) && w.answer(i) == Unresolved ensures i in idx {
      assert IsRequeued(w, entries[i], i);
    }
  }

  /** The pushed-back entries and their positions. */
  lemma {:induction false} RequeuesAreExact(w: World, entries: seq<Entry>, n: nat) returns (idx: seq<nat>)
    requires n <= |entries|
    ensures Rising(idx, n) && |Requeues(w, entries, n)| == |idx|
    ensures forall k :: 0 <= k < |idx| ==>
      && IsRequeued(w, entries[idx[k]], idx[k])
      && Requeues(w, entries, n)[k] == Ref(Retried(w, entries[idx[k]].ref, idx[k]))
    ensures forall i: nat :: i < n && IsRequeued(w, entries[i], i) ==> i in idx
  {
    if n == 0 {
      idx := [];
    } else {
      idx := RequeuesAreExact(w, entries, n - 1);
      if IsRequeued(w, entries[n-1], n - 1) {
        ghost var front := idx;
        idx := idx + [n-1];
        assert idx[|front|] == n - 1;
        forall i: nat | i < n && IsRequeued(w, entries[i], i) ensures i in idx {
          if i < n - 1 { assert i in front; }
        }
      }
    }
  }

  /** An exception at entry n leaves the retried part before it and everything from n on untouched. */
  lemma ExceptionKeepsSuffix(w: World, entries: seq<Entry>, n: nat)
    requires n < |entries| && IsLive(w, entries[n], n) && w.answer(n) == Raises
    requires forall k :: 0 <= k < n ==> !(IsLive(w, entries[k], k) && w.answer(k) == Raises)
    ensures Sweep(w, entries) == Requeues(w, entries, n) + entries[n..]
  {
  }

  // ---- A newly pushed reference ----

  lemma {:induction false} StopAtMore(w: World, entries: seq<Entry>, e: Entry, i: nat)
    requires i <= |entries|
    ensures StopAt(w, entries + [e], i)
         == if StopAt(w, entries, i) < |entries| then StopAt(w, entries, i)
            else if IsLive(w, e, |entries|) && w.answer(|entries|) == Raises then |entries| else |entries| + 1
    decreases |entries| - i
  {
  }

  lemma {:induction false} RequeuesOfLonger(w: World, entries: seq<Entry>, e: Entry, n: nat)
    requires n <= |entries|
    ensures Requeues(w, entries + [e], n) == Requeues(w, entries, n)
  {
    if n > 0 {
      RequeuesOfLonger(w, entries, e, n - 1);
      assert (entries + [e])[n-1] == entries[n-1];
    }
  }

  /** What the next sweep leaves of the last entry of a list. */
  function LastLeft(w: World, entries: seq<Entry>, e: Entry): seq<Entry> {
    var i := |entries|;
    if StopAt(w, entries, 0) < i || (IsLive(w, e, i) && w.answer(i) == Raises) then [e]
    else if IsRequeued(w, e, i) then [Ref(Retried(w, e.ref, i))]
    else []
  }

  /**
   Pushing adds to what a sweep leaves and changes nothing else: the new entry ends up last, untouched after an
   exception, one attempt further when unresolved, and gone when resolved or expired.
   */
  lemma PushedIsSweptLast(w: World, entries: seq<Entry>, e: Entry)
    ensures Sweep(w, entries + [e]) == Sweep(w, entries) + LastLeft(w, entries, e)
  {
    var more, n := entries + [e], StopAt(w, entries, 0);
    StopAtMore(w, entries, e, 0);
    RequeuesOfLonger(w, entries, e, n);
    if n < |entries| {
      assert more[n..] == entries[n..] + [e];
    } else {
      assert entries[n..] == [] && more[..n] == entries;
      assert more[n] == e && more[n..] == [e] && more[n+1..] == [];
    }
  }

  // ---- Bounded attempts ----

  ghost predicate Bounded(entries: seq<Entry>, low: int) {
    forall i :: 0 <= i < |entries| && entries[i].Ref? ==> low <= entries[i].ref.attemptCount <= MAX_ATTEMPTS + 1
  }

  /** No reference is ever attempted more than six times. */
  lemma SweepKeepsBound(w: World, entries: seq<Entry>, low: int)
    requires Bounded(entries, low)
    ensures Bounded(Sweep(w, entries), low)
  {
    var n := StopAt(w, entries, 0);
    var idx := RequeuesAreExact(w, entries, n);
    var kept := Requeues(w, entries, n);
    forall i | 0 <= i < |Sweep(w, entries)| && Sweep(w, entries)[i].Ref?
      ensures low <= Sweep(w, entries)[i].ref.attemptCount <= MAX_ATTEMPTS + 1
    {
      if i < |kept| {
        assert Sweep(w, entries)[i] == Ref(Retried(w, entries[idx[i]].ref, idx[i]));
      } else {
        assert Sweep(w, entries)[i] == entries[i - |kept| + n];
      }
    }
  }

  ghost predicate NeverRaises(w: World) {
    forall i: nat :: w.answer(i) != Raises
  }

  /** A sweep without exceptions leaves only references, each one attempt further. */
  lemma QuietSweepRaisesCounts(w: World, entries: seq<Entry>, low: int)
    requires NeverRaises(w) && Bounded(entries, low)
    ensures Bounded(Sweep(w, entries), low + 1)
    ensures forall i :: 0 <= i < |Sweep(w, entries)| ==> Sweep(w, entries)[i].Ref?
  {
    var n := StopAt(w, entries, 0);
    assert n == |entries|;
    var idx := RequeuesAreExact(w, entries, n);
    assert Sweep(w, entries) == Requeues(w, entries, n);
  }

  function Sweeps(ws: seq<World>, entries: seq<Entry>): seq<Entry> {
    if ws == [] then entries else Sweep(ws[|ws|-1], Sweeps(ws[..|ws|-1], entries))
  }

  lemma {:induction false} CountsAfterSweeps(ws: seq<World>, entries: seq<Entry>)
    requires Bounded(entries, 0) && forall i :: 0 <= i < |ws| ==> NeverRaises(ws[i])
    ensures Bounded(Sweeps(ws, entries), |ws|)
    ensures ws != [] ==> forall i :: 0 <= i < |Sweeps(ws, entries)| ==> Sweeps(ws, entries)[i].Ref?
  {
    if ws != [] {
      CountsAfterSweeps(ws[..|ws|-1], entries);
      QuietSweepRaisesCounts(ws[|ws|-1], Sweeps(ws[..|ws|-1], entries), |ws| - 1);
    }
  }

  lemma NonEmptyBound(entries: seq<Entry>, low: int)
    requires entries != [] && Bounded(entries, low) && forall i :: 0 <= i < |entries| ==> entries[i].Ref?
    ensures low <= MAX_ATTEMPTS + 1
  {
    assert entries[0].Ref?;
  }

  /** Seven sweeps without exceptions and without new references always empty a list. */
  lemma SevenSweepsEmpty(ws: seq<World>, entries: seq<Entry>)
    requires |ws| == 7 && Bounded(entries, 0) && forall i :: 0 <= i < |ws| ==> NeverRaises(ws[i])
    ensures Sweeps(ws, entries) == []
  {
    CountsAfterSweeps(ws, entries);
    var left := Sweeps(ws, entries);
    if left != [] {
      NonEmptyBound(left, 7);
    }
  }

  /** When a list's only reference was last stamped, given the sweeps so far. */
  function LastStamp(ws: seq<World>, ref: PendingRef): real {
    if ws == [] then ref.attemptedAt else ws[|ws|-1].stampedAt(0)
  }

  /** Each sweep comes in time and fails to resolve the reference. */
  ghost predicate FailsInTime(ws: seq<World>, ref: PendingRef) {
    ws == [] ||
    var front, w := ws[..|ws|-1], ws[|ws|-1];
    FailsInTime(front, ref) && w.answer(0) == Unresolved && w.checkedAt(0) - LastStamp(front, ref) <= PENDING_TTL
  }

  /** Seven is exact: a fresh reference retried in time without success is still there after six. */
  lemma {:induction false} SixSweepsMayNotSuffice(ws: seq<World>, ref: PendingRef)
    requires |ws| <= 6 && ref.attemptCount == 0 && FailsInTime(ws, ref)
    ensures Sweeps(ws, [Ref(ref)])
         == [Ref(ref.(attemptCount := |ws|, attemptedAt := LastStamp(ws, ref)))]
  {
    if ws != [] {
      var front, w := ws[..|ws|-1], ws[|ws|-1];
      SixSweepsMayNotSuffice(front, ref);
      var before := ref.(attemptCount := |front|, attemptedAt := LastStamp(front, ref));
      SweepOfOne(w, before);
    }
  }

  lemma SweepOfOne(w: World, ref: PendingRef)
    requires IsRequeued(w, Ref(ref), 0)
    ensures Sweep(w, [Ref(ref)]) == [Ref(Retried(w, ref, 0))]
  {
    assert StopAt(w, [Ref(ref)], 0) == 1;
    assert Requeues(w, [Ref(ref)], 0) == [];
    assert [Ref(ref)][1..] == [];
  }
}
