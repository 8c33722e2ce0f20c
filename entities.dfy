/**
 * Entities: the EntityID enum, GetEntityType's classification of entity messages,
 * and what ListEntities gathers from the messages its sink receives.
 */
module Entities {
  import opened Wire
  import opened Catalog
  import opened Registry

  /** EntityID, an int32 enum. */
  datatype EntityId =
    | UndefinedEntity
    | BinarySensor
    | Cover
    | Fan
    | Light
    | Sensor
    | Switch
    | TextSensor
    | Camera
    | Climate

  /** The int32 value of each EntityID constant. */
  function Value(e: EntityId): (v: int)
    ensures 0 <= v <= 9
    ensures v == 0 <==> e == UndefinedEntity
  {
    match e
    case UndefinedEntity => 0
    case BinarySensor => 1
    case Cover => 2
    case Fan => 3
    case Light => 4
    case Sensor => 5
    case Switch => 6
    case TextSensor => 7
    case Camera => 8
    case Climate => 9
  }

  /**
   * The message types that satisfy the Entity interface (GetKey, GetName and
   * GetObjectId): the ListEntities*Response messages that describe one entity.
   * ListEntitiesServicesResponse has no object_id, so it is not an Entity.
   */
  predicate IsEntity(s: Schema)
  {
    s in {ListEntitiesBinarySensorResponse, ListEntitiesCoverResponse, ListEntitiesFanResponse,
          ListEntitiesLightResponse, ListEntitiesSensorResponse, ListEntitiesSwitchResponse,
          ListEntitiesTextSensorResponse, ListEntitiesCameraResponse, ListEntitiesClimateResponse}
  }

  /**
   * GetEntityType: a type switch over the entity messages; anything else is
   * UndefinedEntity. A defined kind goes exactly to the Entity messages, and names
   * the message it was given.
   */
  function GetEntityType(s: Schema): (e: EntityId)
    ensures e != UndefinedEntity <==> IsEntity(s)
    ensures e != UndefinedEntity ==> EntitySchema(e) == Some(s)
  {
    match s
    case ListEntitiesBinarySensorResponse => BinarySensor
    case ListEntitiesCoverResponse => Cover
    case ListEntitiesFanResponse => Fan
    case ListEntitiesLightResponse => Light
    case ListEntitiesSensorResponse => Sensor
    case ListEntitiesSwitchResponse => Switch
    case ListEntitiesTextSensorResponse => TextSensor
    case ListEntitiesCameraResponse => Camera
    case ListEntitiesClimateResponse => Climate
    case _ => UndefinedEntity
  }

  /** The entity message each defined EntityID stands for. */
  function EntitySchema(e: EntityId): Option<Schema>
  {
    match e
    case UndefinedEntity => None
    case BinarySensor => Some(ListEntitiesBinarySensorResponse)
    case Cover => Some(ListEntitiesCoverResponse)
    case Fan => Some(ListEntitiesFanResponse)
    case Light => Some(ListEntitiesLightResponse)
    case Sensor => Some(ListEntitiesSensorResponse)
    case Switch => Some(ListEntitiesSwitchResponse)
    case TextSensor => Some(ListEntitiesTextSensorResponse)
    case Camera => Some(ListEntitiesCameraResponse)
    case Climate => Some(ListEntitiesClimateResponse)
  }

  /**
   * GetEntityType and EntitySchema are inverse: each entity message gets its own kind,
   * so no two entity messages share one, and every kind 1..9 is some message's.
   */
  lemma EntityTypeRoundTrip(s: Schema, e: EntityId)
    ensures IsEntity(s) ==> EntitySchema(GetEntityType(s)) == Some(s)
    ensures e != UndefinedEntity ==> EntitySchema(e).Some? && GetEntityType(EntitySchema(e).value) == e
  {
  }

  /** The EntityID values are pairwise distinct. */
  lemma ValueInjective(a: EntityId, b: EntityId)
    requires Value(a) == Value(b)
    ensures a == b
  {
  }

  /** Every entity message is a reply to ListEntities: its id is among that request's filter. */
  lemma EntitiesAreListReplies(s: Schema)
    requires IsEntity(s)
    ensures IdOf(s) in ListReplyIds
    ensures 12 <= IdOf(s) <= 18 || 43 <= IdOf(s) <= 46
  {
  }

  /** The message types ListEntities subscribes its sink to, in the order it lists them. */
  const ListReplyIds: seq<MessageId> := [
    ListEntitiesBinarySensorResponseID,
    ListEntitiesCameraResponseID,
    ListEntitiesClimateResponseID,
    ListEntitiesCoverResponseID,
    ListEntitiesDoneResponseID,
    ListEntitiesFanResponseID,
    ListEntitiesLightResponseID,
    ListEntitiesSensorResponseID,
    ListEntitiesServicesResponseID,
    ListEntitiesSwitchResponseID,
    ListEntitiesTextSensorResponseID
  ]

  /** The event that ends ListEntities' loop: the sink closed, or the Done message arrived. */
  predicate Ends(ev: SinkEvent)
  {
    ev.SinkClosed? || (ev.msg.Some? && ev.msg.value.schema == ListEntitiesDoneResponse)
  }

  predicate Terminates(evs: seq<SinkEvent>)
  {
    exists k :: 0 <= k < |evs| && Ends(evs[k])
  }

  /** The index of the first ending event. */
  function ListEnd(evs: seq<SinkEvent>): (k: nat)
    requires Terminates(evs)
    ensures k < |evs| && Ends(evs[k])
    ensures forall j :: 0 <= j < k ==> !Ends(evs[j])
  {
    if Ends(evs[0]) then 0
    else
      var k :| 0 <= k < |evs| && Ends(evs[k]);
      assert Terminates(evs[1..]) by { assert Ends(evs[1..][k - 1]); }
      1 + ListEnd(evs[1..])
  }

  /** Whether an event carries an Entity (a nil message or any other type does not). */
  predicate CarriesEntity(ev: SinkEvent)
  {
    ev.Delivered? && ev.msg.Some? && IsEntity(ev.msg.value.schema)
  }

  /** The entity messages among evs, in arrival order. */
  function EntityMessages(evs: seq<SinkEvent>): (ms: seq<Message>)
    ensures |ms| <= |evs|
    ensures forall m :: m in ms ==> IsEntity(m.schema)
  {
    if evs == [] then []
    else
      var last := evs[|evs| - 1];
      EntityMessages(evs[..|evs| - 1]) + (if CarriesEntity(last) then [last.msg.value] else [])
  }

  /** A message is gathered exactly when some event delivered it as an entity. */
  lemma {:induction false} EntityMessagesMembers(evs: seq<SinkEvent>, m: Message)
    ensures m in EntityMessages(evs) <==> exists k :: 0 <= k < |evs| && evs[k] == Delivered(Some(m)) && IsEntity(m.schema)
  {
    if evs != [] {
      var init := evs[..|evs| - 1];
      EntityMessagesMembers(init, m);
      if exists k :: 0 <= k < |init| && init[k] == Delivered(Some(m)) && IsEntity(m.schema) {
        var k :| 0 <= k < |init| && init[k] == Delivered(Some(m)) && IsEntity(m.schema);
        assert evs[k] == init[k];
      }
      if exists k :: 0 <= k < |evs| && evs[k] == Delivered(Some(m)) && IsEntity(m.schema) {
        var k :| 0 <= k < |evs| && evs[k] == Delivered(Some(m)) && IsEntity(m.schema);
        if k < |evs| - 1 {
          assert init[k] == evs[k];
        }
      }
    }
  }

  /** Arrival order is kept: the messages gathered from two runs of events are concatenated. */
  lemma {:induction false} EntityMessagesAppend(a: seq<SinkEvent>, b: seq<SinkEvent>)
    ensures EntityMessages(a + b) == EntityMessages(a) + EntityMessages(b)
    decreases |b|
  {
    if b == [] {
      assert a + b == a;
    } else {
      var b' := b[..|b| - 1];
      assert (a + b)[..|a + b| - 1] == a + b';
      EntityMessagesAppend(a, b');
    }
  }

  /** The Done message is not an entity, so it is never among the gathered messages. */
  lemma DoneIsNotGathered(evs: seq<SinkEvent>, raw: seq<Byte>)
    ensures Message(ListEntitiesDoneResponse, raw) !in EntityMessages(evs)
  {
  }
}
