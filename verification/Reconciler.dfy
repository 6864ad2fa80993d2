/** Which containers are tailed: pod events, handled one at a time, start and cancel tailer
    goroutines. */
module Reconciler {
  import opened Text

  datatype Key = Key(pod: string, container: string)

  datatype Status = Status(name: string, restartCount: int)

  datatype Pod = Pod(name: string, initContainers: seq<Status>, containers: seq<Status>)

  /** A tailer goroutine, the restart count it was started for, and whether its context has been
      cancelled; until then it keeps tailing. */
  datatype Tailer = Tailer(key: Key, restartCount: int, cancelled: bool)

  datatype Config = Config(includeInit: bool, selfPod: string)

  /** The manager's two maps and every goroutine it ever started; a cancel function is the number
      of its goroutine. */
  datatype Book = Book(cancels: map<Key, nat>, restartCounts: map<Key, int>, tailers: seq<Tailer>)

  datatype Event = Seen(pod: Pod) | Deleted(name: string)

  const EMPTY := Book(map[], map[], [])

  predicate IsSelf(c: Config, pod: string) { c.selfPod != "" && pod == c.selfPod }

  function StatusesOf(c: Config, pod: Pod): seq<Status> {
    if c.includeInit then pod.initContainers + pod.containers else pod.containers
  }

  function Stop(b: Book, key: Key): Book {
    if key in b.cancels then
      b.(cancels := b.cancels - {key}, tailers := Cancel(b.tailers, b.cancels[key]))
    else b
  }

  function Cancel(tailers: seq<Tailer>, i: nat): seq<Tailer> {
    if i < |tailers| then tailers[i := tailers[i].(cancelled := true)] else tailers
  }

  function Start(b: Book, key: Key, restartCount: int): Book {
    Book(b.cancels[key := |b.tailers|], b.restartCounts[key := restartCount],
         b.tailers + [Tailer(key, restartCount, false)])
  }

  predicate UpToDate(b: Book, key: Key, restartCount: int) {
    key in b.cancels && key in b.restartCounts && b.restartCounts[key] == restartCount
  }

  function Handle(b: Book, pod: string, s: Status): Book {
    var key := Key(pod, s.name);
    if UpToDate(b, key, s.restartCount) then b else Start(Stop(b, key), key, s.restartCount)
  }

  function HandleAll(b: Book, pod: string, statuses: seq<Status>): Book {
    if statuses == [] then b
    else Handle(HandleAll(b, pod, statuses[..|statuses| - 1]), pod, statuses[|statuses| - 1])
  }

  function Reconcile(c: Config, b: Book, pod: Pod): Book {
    if IsSelf(c, pod.name) then b else HandleAll(b, pod.name, StatusesOf(c, pod))
  }

  /** Every container of the pod that is tailed is stopped, in any order. */
  ghost predicate PodStopped(b: Book, b': Book, pod: string) {
    && b'.restartCounts == b.restartCounts && |b'.tailers| == |b.tailers|
    && (forall k :: k in b'.cancels <==> k in b.cancels && k.pod != pod)
    && (forall k :: k in b'.cancels ==> b'.cancels[k] == b.cancels[k])
    && (forall i :: 0 <= i < |b.tailers| ==>
          b'.tailers[i] == if b.tailers[i].key.pod == pod then b.tailers[i].(cancelled := true) else b.tailers[i])
  }

  // ---- the invariant ----

  /** The map of cancel functions holds exactly the goroutines that are not cancelled, one for
      each key, recorded with the restart count they were started for. */
  ghost predicate Inv(b: Book) {
    && (forall k :: k in b.cancels ==> Recorded(b, k))
    && (forall i :: 0 <= i < |b.tailers| && !b.tailers[i].cancelled ==> IsCurrent(b, i))
  }

  predicate Recorded(b: Book, k: Key)
    requires k in b.cancels
  {
    && b.cancels[k] < |b.tailers| && k in b.restartCounts
    && b.tailers[b.cancels[k]] == Tailer(k, b.restartCounts[k], false)
  }

  predicate IsCurrent(b: Book, i: nat)
    requires i < |b.tailers|
  {
    b.tailers[i].key in b.cancels && b.cancels[b.tailers[i].key] == i
  }

  lemma StopKeepsInv(b: Book, key: Key)
    requires Inv(b)
    ensures Inv(Stop(b, key)) && key !in Stop(b, key).cancels
  {
    var b' := Stop(b, key);
    forall k | k in b'.cancels ensures Recorded(b', k) { assert Recorded(b, k); }
    forall i | 0 <= i < |b'.tailers| && !b'.tailers[i].cancelled ensures IsCurrent(b', i) {
      assert IsCurrent(b, i);
      if key in b.cancels { assert Recorded(b, key); }
    }
  }

  lemma StartKeepsInv(b: Book, key: Key, restartCount: int)
    requires Inv(b) && key !in b.cancels
    ensures Inv(Start(b, key, restartCount))
  {
    var b' := Start(b, key, restartCount);
    forall k | k in b'.cancels ensures Recorded(b', k) {
      if k != key { assert Recorded(b, k); }
    }
    forall i | 0 <= i < |b'.tailers| && !b'.tailers[i].cancelled ensures IsCurrent(b', i) {
      if i < |b.tailers| { assert IsCurrent(b, i); }
    }
  }

  lemma HandleKeepsInv(b: Book, pod: string, s: Status)
    requires Inv(b)
    ensures Inv(Handle(b, pod, s))
  {
    StopKeepsInv(b, Key(pod, s.name));
    if !UpToDate(b, Key(pod, s.name), s.restartCount) {
      StartKeepsInv(Stop(b, Key(pod, s.name)), Key(pod, s.name), s.restartCount);
    }
  }

  lemma {:induction false} HandleAllKeepsInv(b: Book, pod: string, statuses: seq<Status>)
    requires Inv(b)
    ensures Inv(HandleAll(b, pod, statuses))
  {
    if statuses != [] {
      HandleAllKeepsInv(b, pod, statuses[..|statuses| - 1]);
      HandleKeepsInv(HandleAll(b, pod, statuses[..|statuses| - 1]), pod, statuses[|statuses| - 1]);
    }
  }

  lemma PodStoppedKeepsInv(b: Book, b': Book, pod: string)
    requires Inv(b) && PodStopped(b, b', pod)
    ensures Inv(b')
  {
    forall k | k in b'.cancels ensures Recorded(b', k) { assert Recorded(b, k); }
    forall i | 0 <= i < |b'.tailers| && !b'.tailers[i].cancelled ensures IsCurrent(b', i) { assert IsCurrent(b, i); }
  }

  // ---- what one event does ----

  /** Handling a status leaves its container tailed at its count and the others alone. */
  lemma HandleEffect(b: Book, pod: string, s: Status)
    requires Inv(b)
    ensures UpToDate(Handle(b, pod, s), Key(pod, s.name), s.restartCount)
    ensures forall k :: k != Key(pod, s.name) ==> SameKey(b, Handle(b, pod, s), k)
    ensures !UpToDate(b, Key(pod, s.name), s.restartCount) ==>
      Handle(b, pod, s).cancels[Key(pod, s.name)] == |b.tailers|
    ensures |b.tailers| <= |Handle(b, pod, s).tailers|
  {
  }

  /** Nothing about the key is different. */
  predicate SameKey(b: Book, b': Book, k: Key) {
    && (k in b.cancels <==> k in b'.cancels) && (k in b.cancels ==> b'.cancels[k] == b.cancels[k])
    && (k in b.restartCounts <==> k in b'.restartCounts)
    && (k in b.restartCounts ==> b'.restartCounts[k] == b.restartCounts[k])
  }

  /** The count in the last status of that name, if there is one. */
  function LastCount(statuses: seq<Status>, name: string): Option<int> {
    if statuses == [] then None
    else if statuses[|statuses| - 1].name == name then Some(statuses[|statuses| - 1].restartCount)
    else LastCount(statuses[..|statuses| - 1], name)
  }

  /** After a reconcile every container that has a status is tailed at its current restart count
      (the last one, should a name occur twice), and nothing changed for any other. */
  lemma {:induction false} HandleAllEffect(b: Book, pod: string, statuses: seq<Status>, k: Key)
    requires Inv(b)
    ensures var b' := HandleAll(b, pod, statuses);
      && (k.pod == pod && LastCount(statuses, k.container).Some? ==>
            UpToDate(b', k, LastCount(statuses, k.container).value))
      && (k.pod != pod || LastCount(statuses, k.container).None? ==> SameKey(b, b', k))
      && |b.tailers| <= |b'.tailers|
  {
    if statuses != [] {
      var init, s := statuses[..|statuses| - 1], statuses[|statuses| - 1];
      HandleAllEffect(b, pod, init, k);
      HandleAllKeepsInv(b, pod, init);
      HandleEffect(HandleAll(b, pod, init), pod, s);
      if k != Key(pod, s.name) { assert SameKey(HandleAll(b, pod, init), HandleAll(b, pod, statuses), k); }
    }
  }

  /** A container that was not tailed is tailed by a goroutine started now, also if it was tailed
      before at the same restart count. */
  lemma {:induction false} NewContainerIsStarted(b: Book, pod: string, statuses: seq<Status>, k: Key)
    requires Inv(b) && k !in b.cancels && k.pod == pod && LastCount(statuses, k.container).Some?
    ensures var b' := HandleAll(b, pod, statuses);
      k in b'.cancels && |b.tailers| <= b'.cancels[k]
  {
    var init, s := statuses[..|statuses| - 1], statuses[|statuses| - 1];
    var mid := HandleAll(b, pod, init);
    HandleAllKeepsInv(b, pod, init);
    HandleAllEffect(b, pod, init, k);
    HandleEffect(mid, pod, s);
    if LastCount(init, k.container).Some? { NewContainerIsStarted(b, pod, init, k); }
    if k != Key(pod, s.name) { assert SameKey(mid, HandleAll(b, pod, statuses), k); }
  }

  /** A container whose statuses all have the recorded count keeps its goroutine. */
  lemma {:induction false} UnchangedIsLeftAlone(b: Book, pod: string, statuses: seq<Status>)
    requires forall s :: s in statuses ==> UpToDate(b, Key(pod, s.name), s.restartCount)
    ensures HandleAll(b, pod, statuses) == b
  {
    if statuses != [] { UnchangedIsLeftAlone(b, pod, statuses[..|statuses| - 1]); }
  }

  /** One restart count for each name. */
  predicate Consistent(statuses: seq<Status>) {
    forall s, t :: s in statuses && t in statuses && s.name == t.name ==> s.restartCount == t.restartCount
  }

  lemma {:induction false} LastCountIsAStatus(statuses: seq<Status>, name: string)
    ensures LastCount(statuses, name).Some? ==> Status(name, LastCount(statuses, name).value) in statuses
    ensures forall s :: s in statuses && s.name == name ==> LastCount(statuses, name).Some?
  {
    if statuses != [] {
      var init := statuses[..|statuses| - 1];
      LastCountIsAStatus(init, name);
      assert statuses == init + [statuses[|statuses| - 1]];
    }
  }

  /** Every status that differs from what is recorded starts a goroutine. */
  lemma {:induction false} DifferenceRestarts(b: Book, pod: string, statuses: seq<Status>, s: Status)
    requires Inv(b) && s in statuses && !UpToDate(b, Key(pod, s.name), s.restartCount)
    ensures |HandleAll(b, pod, statuses).tailers| > |b.tailers|
  {
    var init, last := statuses[..|statuses| - 1], statuses[|statuses| - 1];
    var mid, k := HandleAll(b, pod, init), Key(pod, last.name);
    HandleAllKeepsInv(b, pod, init);
    HandleAllEffect(b, pod, init, k);
    HandleEffect(mid, pod, last);
    if s in init {
      DifferenceRestarts(b, pod, init, s);
    } else {
      assert s == last;
      if LastCount(init, s.name).Some? && |mid.tailers| == |b.tailers| {
        var t := Status(s.name, LastCount(init, s.name).value);
        LastCountIsAStatus(init, s.name);
        if !UpToDate(b, k, t.restartCount) { DifferenceRestarts(b, pod, init, t); }
      }
    }
  }

  /** Replaying an event changes nothing, exactly if no container name occurs in it with two
      different restart counts. */
  lemma ReplayChangesNothing(c: Config, b: Book, pod: Pod)
    requires Inv(b) && !IsSelf(c, pod.name)
    ensures Reconcile(c, Reconcile(c, b, pod), pod) == Reconcile(c, b, pod) <==> Consistent(StatusesOf(c, pod))
  {
    var statuses, b' := StatusesOf(c, pod), Reconcile(c, b, pod);
    HandleAllKeepsInv(b, pod.name, statuses);
    if Consistent(statuses) {
      forall s | s in statuses ensures UpToDate(b', Key(pod.name, s.name), s.restartCount) {
        HandleAllEffect(b, pod.name, statuses, Key(pod.name, s.name));
        LastCountIsAStatus(statuses, s.name);
      }
      UnchangedIsLeftAlone(b', pod.name, statuses);
    } else {
      var s, t :| s in statuses && t in statuses && s.name == t.name && s.restartCount != t.restartCount;
      if UpToDate(b', Key(pod.name, s.name), s.restartCount) {
        DifferenceRestarts(b', pod.name, statuses, t);
      } else {
        DifferenceRestarts(b', pod.name, statuses, s);
      }
    }
  }

  /** One name with two restart counts: the second time around the container is restarted twice. */
  lemma TwoCountsRestart(c: Config, pod: string)
    requires !IsSelf(c, pod)
    ensures var p := Pod(pod, [], [Status("app", 1), Status("app", 2)]);
      Reconcile(c, Reconcile(c, EMPTY, p), p) != Reconcile(c, EMPTY, p)
  {
    var p := Pod(pod, [], [Status("app", 1), Status("app", 2)]);
    var statuses := StatusesOf(c, p);
    assert statuses == [Status("app", 1), Status("app", 2)];
    assert Status("app", 1) in statuses && Status("app", 2) in statuses;
    assert !Consistent(statuses);
    ReplayChangesNothing(c, EMPTY, p);
  }

  /** A pod that was deleted and comes back is tailed again by new goroutines, at whatever
      restart counts. */
  lemma ReAddedIsTailedAgain(c: Config, b: Book, stopped: Book, pod: Pod, k: Key)
    requires Inv(b) && PodStopped(b, stopped, pod.name) && !IsSelf(c, pod.name)
    requires k.pod == pod.name && LastCount(StatusesOf(c, pod), k.container).Some?
    ensures var b' := Reconcile(c, stopped, pod);
      && UpToDate(b', k, LastCount(StatusesOf(c, pod), k.container).value)
      && b'.cancels[k] >= |b.tailers|
  {
    PodStoppedKeepsInv(b, stopped, pod.name);
    HandleAllEffect(stopped, pod.name, StatusesOf(c, pod), k);
    NewContainerIsStarted(stopped, pod.name, StatusesOf(c, pod), k);
  }

  // ---- which containers an event reaches ----

  /** A status that counts: a container's, or if asked for an init container's. */
  predicate Listed(c: Config, pod: Pod, s: Status) {
    s in pod.containers || (c.includeInit && s in pod.initContainers)
  }

  /** It has the only restart count of its name. */
  ghost predicate OnlyCount(c: Config, pod: Pod, s: Status) {
    forall t: Status :: Listed(c, pod, t) && t.name == s.name ==> t.restartCount == s.restartCount
  }

  /** A goroutine is tailing the container since this restart count. */
  predicate Tails(b: Book, pod: string, s: Status) { Tailer(Key(pod, s.name), s.restartCount, false) in b.tailers }

  /** Every listed container is tailed at its restart count. */
  ghost predicate AllTailed(c: Config, b: Book, pod: Pod) {
    forall s: Status :: Listed(c, pod, s) && OnlyCount(c, pod, s) ==> Tails(b, pod.name, s)
  }

  /** The goroutines of this container are the same. */
  predicate SameTailers(b: Book, b': Book, k: Key) {
    && |b.tailers| <= |b'.tailers|
    && (forall j :: 0 <= j < |b.tailers| && b.tailers[j].key == k ==> b'.tailers[j] == b.tailers[j])
    && (forall j :: |b.tailers| <= j < |b'.tailers| ==> b'.tailers[j].key != k)
    && (forall j :: 0 <= j < |b.tailers| ==> b'.tailers[j].key == b.tailers[j].key)
  }

  /** Nothing happens to containers that are not listed, and to those of other pods. */
  ghost predicate OthersSame(c: Config, b: Book, b': Book, pod: Pod) {
    forall k: Key :: k.pod != pod.name || (forall s: Status :: Listed(c, pod, s) ==> s.name != k.container) ==>
      SameTailers(b, b', k)
  }

  lemma ListedExact(c: Config, pod: Pod, s: Status)
    ensures s in StatusesOf(c, pod) <==> Listed(c, pod, s)
  {
  }

  lemma ListedIsTailed(c: Config, b: Book, pod: Pod, s: Status)
    requires Inv(b) && Listed(c, pod, s) && OnlyCount(c, pod, s)
    ensures Tails(HandleAll(b, pod.name, StatusesOf(c, pod)), pod.name, s)
  {
    var statuses, k := StatusesOf(c, pod), Key(pod.name, s.name);
    ListedExact(c, pod, s);
    LastCountIsAStatus(statuses, s.name);
    ListedExact(c, pod, Status(s.name, LastCount(statuses, s.name).value));
    HandleAllEffect(b, pod.name, statuses, k);
    HandleAllKeepsInv(b, pod.name, statuses);
    assert Recorded(HandleAll(b, pod.name, statuses), k);
  }

  lemma HandleSameTailers(b: Book, pod: string, s: Status, k: Key)
    requires Inv(b) && k != Key(pod, s.name)
    ensures SameTailers(b, Handle(b, pod, s), k)
  {
    var key := Key(pod, s.name);
    if key in b.cancels { assert Recorded(b, key); }
  }

  lemma {:induction false} HandleAllSameTailers(b: Book, pod: string, statuses: seq<Status>, k: Key)
    requires Inv(b) && (k.pod != pod || forall s :: s in statuses ==> s.name != k.container)
    ensures SameTailers(b, HandleAll(b, pod, statuses), k)
  {
    if statuses != [] {
      var init, s := statuses[..|statuses| - 1], statuses[|statuses| - 1];
      var mid := HandleAll(b, pod, init);
      HandleAllSameTailers(b, pod, init, k);
      HandleAllKeepsInv(b, pod, init);
      assert s in statuses;
      HandleSameTailers(mid, pod, s, k);
    }
  }

  /** An event of grepod's own pod is skipped, and only such an event: of any other pod, and of every
      pod if the own name is not known, each container that counts is tailed afterwards and nothing
      else has changed. */
  lemma SkipsOnlySelf(c: Config, b: Book, pod: Pod)
    requires Inv(b)
    ensures c.selfPod != "" && pod.name == c.selfPod ==> Reconcile(c, b, pod) == b
    ensures c.selfPod == "" || pod.name != c.selfPod ==>
      AllTailed(c, Reconcile(c, b, pod), pod) && OthersSame(c, b, Reconcile(c, b, pod), pod)
  {
    if c.selfPod == "" || pod.name != c.selfPod {
      var b', statuses := Reconcile(c, b, pod), StatusesOf(c, pod);
      forall s: Status | Listed(c, pod, s) && OnlyCount(c, pod, s) ensures Tails(b', pod.name, s) {
        ListedIsTailed(c, b, pod, s);
      }
      forall k: Key | k.pod != pod.name || (forall s: Status :: Listed(c, pod, s) ==> s.name != k.container)
        ensures SameTailers(b, b', k)
      {
        forall s | s in statuses ensures Listed(c, pod, s) { ListedExact(c, pod, s); }
        HandleAllSameTailers(b, pod.name, statuses, k);
      }
    }
  }

  // ---- every run ----

  ghost predicate Next(c: Config, b: Book, e: Event, b': Book) {
    match e
    case Seen(pod) => b' == Reconcile(c, b, pod)
    case Deleted(name) => PodStopped(b, b', name)
  }

  ghost predicate NeverSelf(c: Config, b: Book) {
    forall i :: 0 <= i < |b.tailers| ==> c.selfPod == "" || b.tailers[i].key.pod != c.selfPod
  }

  lemma {:induction false} HandleAllNeverSelf(c: Config, b: Book, pod: string, statuses: seq<Status>)
    requires NeverSelf(c, b) && !IsSelf(c, pod)
    ensures NeverSelf(c, HandleAll(b, pod, statuses))
  {
    if statuses != [] { HandleAllNeverSelf(c, b, pod, statuses[..|statuses| - 1]); }
  }

  /** A run from the start: the states before, between and after the events. */
  ghost predicate IsRun(c: Config, books: seq<Book>, events: seq<Event>) {
    && |books| == |events| + 1 && books[0] == EMPTY
    && forall i :: 0 <= i < |events| ==> Next(c, books[i], events[i], books[i + 1])
  }

  lemma NextKeepsInv(c: Config, b: Book, e: Event, b': Book)
    requires Inv(b) && NeverSelf(c, b) && Next(c, b, e, b')
    ensures Inv(b') && NeverSelf(c, b')
  {
    match e
    case Seen(pod) =>
      if !IsSelf(c, pod.name) {
        HandleAllKeepsInv(b, pod.name, StatusesOf(c, pod));
        HandleAllNeverSelf(c, b, pod.name, StatusesOf(c, pod));
      }
    case Deleted(name) => PodStoppedKeepsInv(b, b', name);
  }

  /** After every event of every sequence the maps agree with the goroutines, and grepod's own
      pod has never been tailed. */
  lemma {:induction false} RunKeepsInv(c: Config, books: seq<Book>, events: seq<Event>, i: nat)
    requires IsRun(c, books, events) && i <= |events|
    ensures Inv(books[i])
    ensures forall j :: 0 <= j < |books[i].tailers| ==> c.selfPod == "" || books[i].tailers[j].key.pod != c.selfPod
  {
    if i > 0 {
      RunKeepsInv(c, books, events, i - 1);
      NextKeepsInv(c, books[i - 1], events[i - 1], books[i - 1 + 1]);
    }
  }
}
