/** The tailer manager as the program has it: maps that pod events and tailers update in place. */
module Manager {
  import opened Text
  import opened Timestamps
  import opened Ingest
  import opened Reconciler
  import Markers

  class Manager {
    const config: Config
    const namespace: string
    /** A line's level, from its text; any function. */
    const detectLevel: string -> string
    var cancels: map<Key, nat>
    var restartCounts: map<Key, int>
    var markers: map<Key, Markers.Marker>
    /** Every goroutine started. */
    var tailers: seq<Tailer>

    ghost function Snapshot(): Book
      reads this
    {
      Book(cancels, restartCounts, tailers)
    }

    ghost predicate Valid()
      reads this
    {
      Inv(Snapshot()) && NeverSelf(config, Snapshot())
    }

    constructor (config: Config, namespace: string, detectLevel: string -> string)
      ensures Valid() && Snapshot() == EMPTY && markers == map[] && this.config == config
      ensures this.namespace == namespace && this.detectLevel == detectLevel
    {
      this.config, this.namespace, this.detectLevel := config, namespace, detectLevel;
      cancels, restartCounts, markers, tailers := map[], map[], map[], [];
    }

    method StartContainer(key: Key, restartCount: int)
      modifies `cancels, `restartCounts, `tailers
      ensures Snapshot() == Start(old(Snapshot()), key, restartCount)
    {
      cancels := cancels[key := |tailers|];
      restartCounts := restartCounts[key := restartCount];
      tailers := tailers + [Tailer(key, restartCount, false)];
    }

    method StopContainer(key: Key)
      modifies `cancels, `tailers
      ensures Snapshot() == Stop(old(Snapshot()), key)
    {
      if key in cancels {
        var cancel := cancels[key];
        cancels := cancels - {key};
        if cancel < |tailers| {
          tailers := tailers[cancel := tailers[cancel].(cancelled := true)];
        }
      }
    }

    /** `reconcilePod`: does what Reconcile says, and no marker changes. */
    method ReconcilePod(pod: Pod)
      requires Valid()
      modifies `cancels, `restartCounts, `tailers
      ensures Valid() && Snapshot() == Reconcile(config, old(Snapshot()), pod)
      ensures config.selfPod != "" && pod.name == config.selfPod ==> Snapshot() == old(Snapshot())
      ensures config.selfPod == "" || pod.name != config.selfPod ==>
        AllTailed(config, Snapshot(), pod) && OthersSame(config, old(Snapshot()), Snapshot(), pod)
    {
      ghost var before := Snapshot();
      if config.selfPod != "" && pod.name == config.selfPod { return; }
      var statuses := pod.containers;
      if config.includeInit { statuses := pod.initContainers + pod.containers; }
      assert statuses[..0] == [] && statuses[..|statuses|] == statuses;
      for i := 0 to |statuses|
        invariant Snapshot() == HandleAll(before, pod.name, statuses[..i])
      {
        var s := statuses[i];
        var key := Key(pod.name, s.name);
        assert statuses[..i + 1][..i] == statuses[..i];
        if !(key in cancels && key in restartCounts && restartCounts[key] == s.restartCount) {
          StopContainer(key);
          StartContainer(key, s.restartCount);
        }
      }
      NextKeepsInv(config, before, Seen(pod), Snapshot());
      SkipsOnlySelf(config, before, pod);
    }

    /** A tailer when these containers have been stopped. */
    function Reached(t: Tailer, done: set<Key>): Tailer { if t.key in done then t.(cancelled := true) else t }

    /** What has happened when these of the pod's containers have been stopped. */
    ghost predicate StoppedSoFar(before: Book, done: set<Key>)
      reads this
    {
      && restartCounts == before.restartCounts && |tailers| == |before.tailers|
      && cancels == before.cancels - done
      && forall i :: 0 <= i < |tailers| ==>
           tailers[i] == Reached(before.tailers[i], done)
    }

    lemma StopOneMore(before: Book, mid: Book, done: set<Key>, key: Key)
      requires Inv(before) && key in before.cancels && key !in done
      requires mid.restartCounts == before.restartCounts && |mid.tailers| == |before.tailers|
      requires mid.cancels == before.cancels - done
      requires forall i :: 0 <= i < |mid.tailers| ==>
        mid.tailers[i] == Reached(before.tailers[i], done)
      requires Snapshot() == Stop(mid, key)
      ensures StoppedSoFar(before, done + {key})
    {
      assert Recorded(before, key);
      forall i | 0 <= i < |before.tailers| && before.tailers[i].key == key && !before.tailers[i].cancelled
        ensures i == before.cancels[key]
      {
        assert IsCurrent(before, i);
      }
    }

    /** `stopPod`: the pod's goroutines are cancelled, and the markers of those that were being
        tailed are forgotten. */
    method StopPod(podName: string)
      requires Valid()
      modifies `cancels, `tailers, `markers
      ensures Valid() && PodStopped(old(Snapshot()), Snapshot(), podName)
      ensures markers == old(markers) - (set k | k in old(cancels) && k.pod == podName)
    {
      ghost var before := Snapshot();
      var toCancel := set k | k in cancels && k.pod == podName;
      ghost var done: set<Key> := {};
      while toCancel != {}
        invariant StoppedSoFar(before, done) && done !! toCancel
        invariant done + toCancel == set k | k in before.cancels && k.pod == podName
        invariant markers == old(markers) - done
      {
        var key :| key in toCancel;
        ghost var mid := Snapshot();
        StopContainer(key);
        StopOneMore(before, mid, done, key);
        DeleteMarker(key);
        toCancel, done := toCancel - {key}, done + {key};
      }
      forall i | 0 <= i < |before.tailers| && !before.tailers[i].cancelled
        ensures before.tailers[i].key in done <==> before.tailers[i].key.pod == podName
      {
        assert IsCurrent(before, i);
      }
      NextKeepsInv(config, before, Deleted(podName), Snapshot());
    }

    // ---- markers ----

    /** `resolveMarker`, given what the store answers and the time of a live line that another
        goroutine may set during the lookup: afterwards there is an entry, and one that was there,
        or that was set meanwhile, is not overwritten. */
    method ResolveMarker(key: Key, answer: Option<Time>, meanwhile: Option<Time>)
      modifies `markers
      ensures key in markers && (key in old(markers) ==> markers == old(markers))
      ensures key !in old(markers) ==> markers == old(markers)[key := markers[key]] && markers[key].resolved
      ensures key !in old(markers) && meanwhile.Some? ==> markers[key].ts == meanwhile.value
      ensures key !in old(markers) && meanwhile.None? ==> markers[key].ts == if answer.Some? then answer.value else 0
    {
      if key in markers { return; }
      var found := if answer.Some? then answer.value else 0;
      if meanwhile.Some? { SetMarker(key, meanwhile.value); }
      if key !in markers { markers := markers[key := Markers.Marker(found, true)]; }
    }

    method MarkerSince(key: Key) returns (since: Time)
      ensures key in markers ==> since == markers[key].ts
      ensures key !in markers ==> since == 0
    {
      return if key in markers then markers[key].ts else 0;
    }

    /** `setMarker` advances the marker, never back, and changes no other. */
    method SetMarker(key: Key, ts: Time)
      modifies `markers
      ensures key in markers && markers == old(markers)[key := markers[key]] && markers[key].resolved
      ensures markers[key].ts == if key in old(markers) && old(markers)[key].ts > ts then old(markers)[key].ts else ts
    {
      var cur := if key in markers then markers[key] else Markers.Marker(0, false);
      if ts > cur.ts { cur := cur.(ts := ts); }
      markers := markers[key := cur.(resolved := true)];
    }

    method DeleteMarker(key: Key)
      modifies `markers
      ensures markers == old(markers) - {key}
    {
      markers := markers - {key};
    }

    /** One round of `tailContainer`'s loop: the stream is opened from the marker on, and its lines
        take the marker further, never back. */
    method StreamLogs(key: Key, texts: seq<string>, clock: seq<Time>) returns (since: Time, sent: seq<LogLine>)
      requires |clock| == |texts|
      modifies `markers
      ensures key in old(markers) ==> since == old(markers)[key].ts && key in markers && since <= markers[key].ts
      ensures key !in old(markers) ==> since == 0
      ensures |sent| == |texts| && forall i :: 0 <= i < |texts| ==>
        sent[i] == LogLine(key.pod, namespace, key.container, clock[i], detectLevel(texts[i]), texts[i])
      ensures texts == [] ==> markers == old(markers)
      ensures texts != [] ==> Advanced(old(markers), markers, key, clock)
    {
      since := MarkerSince(key);
      sent := Ingest(key, texts, clock, true);
    }

    /** `ingest`, with the clock's reading for each line: every line goes to the sink once, in
        order, and only those of a live stream advance the marker. */
    method Ingest(key: Key, texts: seq<string>, clock: seq<Time>, trackMarker: bool) returns (sent: seq<LogLine>)
      requires |clock| == |texts|
      modifies `markers
      ensures |sent| == |texts| && forall i :: 0 <= i < |texts| ==>
        sent[i] == LogLine(key.pod, namespace, key.container, clock[i], detectLevel(texts[i]), texts[i])
      ensures !trackMarker || texts == [] ==> markers == old(markers)
      ensures trackMarker && texts != [] ==> Advanced(old(markers), markers, key, clock)
    {
      sent := [];
      for i := 0 to |texts|
        invariant |sent| == i && forall j :: 0 <= j < i ==>
          sent[j] == LogLine(key.pod, namespace, key.container, clock[j], detectLevel(texts[j]), texts[j])
        invariant !trackMarker || i == 0 ==> markers == old(markers)
        invariant trackMarker && i > 0 ==> Advanced(old(markers), markers, key, clock[..i])
      {
        var ts := clock[i];
        sent := sent + [LogLine(key.pod, namespace, key.container, ts, detectLevel(texts[i]), texts[i])];
        assert clock[..i + 1] == clock[..i] + [ts];
        if trackMarker {
          ghost var before := markers;
          SetMarker(key, ts);
          if i == 0 { AdvancedFirst(before, markers, key, ts); }
          else { AdvancedMore(old(markers), before, markers, key, clock[..i], ts); }
        }
      }
      assert clock[..|texts|] == clock;
    }
  }

  /** The key's marker is the latest of what it was and of these times, and no other has changed. */
  ghost predicate Advanced(before: map<Key, Markers.Marker>, after: map<Key, Markers.Marker>, key: Key,
                           times: seq<Time>)
  {
    && key in after && after == before[key := after[key]]
    && (forall t :: t in times ==> t <= after[key].ts)
    && (key in before ==> before[key].ts <= after[key].ts)
    && (after[key].ts in times || (key in before && after[key].ts == before[key].ts))
  }

  lemma AdvancedFirst(before: map<Key, Markers.Marker>, after: map<Key, Markers.Marker>, key: Key, ts: Time)
    requires key in after && after == before[key := after[key]]
    requires after[key].ts == if key in before && before[key].ts > ts then before[key].ts else ts
    ensures Advanced(before, after, key, [] + [ts])
  {
  }

  lemma AdvancedMore(before: map<Key, Markers.Marker>, mid: map<Key, Markers.Marker>, after: map<Key, Markers.Marker>,
                     key: Key, times: seq<Time>, ts: Time)
    requires Advanced(before, mid, key, times) && key in after && after == mid[key := after[key]]
    requires after[key].ts == if mid[key].ts > ts then mid[key].ts else ts
    ensures Advanced(before, after, key, times + [ts])
  {
  }
}
