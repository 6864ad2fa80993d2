/** The broadcaster as the program has it: a set of channels that publishing updates in place. */
module Broadcaster {
  import opened Text
  import opened Ingest
  import opened Runs
  import opened Shards
  import FanOut

  /** A channel with room for 256 lines. */
  class Channel {
    var buf: seq<LogLine>
    var closed: bool

    constructor ()
      ensures buf == [] && !closed
    {
      buf, closed := [], false;
    }
  }

  class Broadcaster {
    var subs: set<Channel>

    /** Every channel in the map is open. */
    ghost predicate Valid()
      reads this, subs
    {
      forall ch :: ch in subs ==> !ch.closed && |ch.buf| <= FanOut.BUFFER
    }

    constructor ()
      ensures Valid() && subs == {}
    {
      subs := {};
    }

    method Subscribe() returns (ch: Channel)
      requires Valid()
      modifies `subs
      ensures Valid() && fresh(ch) && ch.buf == [] && subs == old(subs) + {ch}
    {
      ch := new Channel();
      subs := subs + {ch};
    }

    /** The unsubscribe function: the first call takes the channel out of the map and then
        closes it, later ones do nothing. */
    method Unsubscribe(ch: Channel)
      requires Valid()
      modifies `subs, ch`closed
      ensures Valid() && ch.closed && ch !in subs
      ensures subs == old(subs) - {ch}
    {
      if ch.closed { return; }
      subs := subs - {ch};
      ch.closed := true;
    }

    /** `Publish`, when no reader runs in between: every subscriber has the line, as the last of
        the latest 256. */
    method Publish(l: LogLine)
      requires Valid()
      modifies subs
      ensures Valid()
      ensures forall ch :: ch in subs ==> ch.buf == Latest(old(ch.buf) + [l], FanOut.BUFFER)
    {
      var todo := subs;
      while todo != {}
        invariant todo <= subs && forall ch :: ch in subs ==> !ch.closed && |ch.buf| <= FanOut.BUFFER
        invariant forall ch :: ch in todo ==> ch.buf == old(ch.buf)
        invariant forall ch :: ch in subs - todo ==> ch.buf == Latest(old(ch.buf) + [l], FanOut.BUFFER)
      {
        var ch :| ch in todo;
        if |ch.buf| < FanOut.BUFFER {
          ch.buf := ch.buf + [l];
        } else {
          if ch.buf != [] { ch.buf := ch.buf[1..]; }
          if |ch.buf| < FanOut.BUFFER { ch.buf := ch.buf + [l]; }
        }
        todo := todo - {ch};
      }
    }
  }

  /** The same of the step system: without a reader in between, publishing to one subscriber
      keeps the latest 256 lines and touches nobody else. */
  lemma UninterruptedPublish(f: FanOut.Fan, id: FanOut.Id, l: LogLine, todo: set<FanOut.Id>)
    requires f.publisher == FanOut.Ranging(l, todo) && id in todo && id in f.subs
    requires !f.subs[id].closed && |f.subs[id].buf| <= FanOut.BUFFER
    ensures var events := if |f.subs[id].buf| < FanOut.BUFFER then [FanOut.Try(id)]
                          else [FanOut.Try(id), FanOut.Evict, FanOut.Retry];
      var end := Exec(FanOut.Step, f, events);
      end.Some? && end.value.publisher == FanOut.Ranging(l, todo - {id})
      && end.value.subs.Keys == f.subs.Keys
      && end.value.subs[id].buf == Latest(f.subs[id].buf + [l], FanOut.BUFFER)
      && forall x :: x in f.subs && x != id ==> end.value.subs[x] == f.subs[x]
  {
    ExecOne(FanOut.Step, f, FanOut.Try(id));
    ExecMore(FanOut.Step, f, [FanOut.Try(id)], FanOut.Evict);
    assert [FanOut.Try(id)] + [FanOut.Evict] == [FanOut.Try(id), FanOut.Evict];
    ExecMore(FanOut.Step, f, [FanOut.Try(id), FanOut.Evict], FanOut.Retry);
    assert [FanOut.Try(id), FanOut.Evict] + [FanOut.Retry] == [FanOut.Try(id), FanOut.Evict, FanOut.Retry];
  }
}
