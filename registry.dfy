/**
 * The subscriber registry: ESPHomeConnection.receivers, a map from each receiving
 * channel to the set of message types it wants. Channels are modelled as opaque
 * sink ids; a filter map[MessageID]bool, whose entries are only ever set to true,
 * as the set of its keys.
 */
module Registry {
  import opened Wire
  import opened Catalog

  /** A channel made by make(chan proto.Message), named by the order it was made in. */
  type SinkId = nat

  type Receivers = map<SinkId, set<MessageId>>

  /** What a blocking receive on a sink yields: a message (nil is None), or the channel was closed. */
  datatype SinkEvent = Delivered(msg: Option<Message>) | SinkClosed

  /** c.receivers[r] read as a set; an absent (nil) filter has no entries. */
  function FilterOf(rs: Receivers, r: SinkId): set<MessageId>
  {
    if r in rs then rs[r] else {}
  }

  /** The message types listed in fs. */
  function Types(fs: seq<MessageId>): set<MessageId>
  {
    set f | f in fs
  }

  /**
   * The registry after AddReceiver(r, fs...). It only adds: r's filter becomes its old
   * filter united with fs, r gets an entry exactly when it had one or fs is non-empty,
   * and no other sink changes.
   */
  function Added(rs: Receivers, r: SinkId, fs: seq<MessageId>): (a: Receivers)
    ensures r in a <==> r in rs || |fs| > 0
    ensures FilterOf(a, r) == FilterOf(rs, r) + Types(fs)
    ensures forall s :: s != r ==> (s in a <==> s in rs)
    ensures forall s :: s != r && s in rs ==> a[s] == rs[s]
  {
    if |fs| == 0 then rs else rs[r := FilterOf(rs, r) + Types(fs)]
  }

  /**
   * The registry after RemoveReceiver(r): r is gone with its whole filter, nothing
   * changes when r was absent, and every other sink keeps its entry.
   */
  function Removed(rs: Receivers, r: SinkId): (a: Receivers)
    ensures r !in a
    ensures r !in rs ==> a == rs
    ensures forall s :: s != r ==> (s in a <==> s in rs)
    ensures forall s :: s != r && s in rs ==> a[s] == rs[s]
  {
    rs - {r}
  }

  /**
   * The sinks the receive loop hands a message of type t to: only registered ones,
   * and each exactly when its filter (empty for an unregistered sink) holds t.
   */
  function Recipients(rs: Receivers, t: MessageId): (rcp: set<SinkId>)
    ensures rcp <= rs.Keys
    ensures forall r :: r in rcp <==> t in FilterOf(rs, r)
  {
    set r | r in rs && t in rs[r]
  }

  predicate Distinct<T(==)>(s: seq<T>)
  {
    forall i, j :: 0 <= i < j < |s| ==> s[i] != s[j]
  }

  /** Adding the filter ids one at a time, as AddReceiver's loop does, adds them all. */
  lemma AddedOneMore(rs: Receivers, r: SinkId, fs: seq<MessageId>, f: MessageId)
    ensures Added(Added(rs, r, fs), r, [f]) == Added(rs, r, fs + [f])
  {
    var lhs := Added(Added(rs, r, fs), r, [f]);
    var rhs := Added(rs, r, fs + [f]);
    assert Types(fs + [f]) == Types(fs) + {f};
    assert lhs.Keys == rhs.Keys;
    forall s | s in lhs
      ensures lhs[s] == rhs[s]
    {
      if s == r && |fs| == 0 {
        assert lhs[s] == FilterOf(rs, r) + {f};
      }
    }
  }

  /** A sink added fresh and removed again leaves the registry as it found it. */
  lemma AddedThenRemoved(rs: Receivers, r: SinkId, fs: seq<MessageId>)
    requires r !in rs
    ensures Removed(Added(rs, r, fs), r) == rs
  {
    assert Removed(Added(rs, r, fs), r).Keys == rs.Keys;
  }

  /** A sink just registered for fs receives exactly the types in fs, next to the others' recipients. */
  lemma RecipientsAfterAdd(rs: Receivers, r: SinkId, fs: seq<MessageId>, t: MessageId)
    ensures Recipients(Added(rs, r, fs), t) == (Recipients(rs, t) - {r}) + (if t in FilterOf(rs, r) || t in fs then {r} else {})
  {
  }

  /** Removing a sink takes it, and only it, out of every delivery. */
  lemma RecipientsAfterRemove(rs: Receivers, r: SinkId, t: MessageId)
    ensures Recipients(Removed(rs, r), t) == Recipients(rs, t) - {r}
  {
  }
}
