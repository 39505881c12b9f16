/**
  The host runtime as the widgets see it: a data object with a GUID and named
  attributes, a notification bus that hands out subscription handles, and the
  requests a widget sends (run a microflow or nanoflow, open a page, set an
  attribute, retrieve objects). What the host does with a request is not
  modelled; the bus records which requests were sent, in order.
 */
module Host {
  import opened Wrappers

  /** A subscription handle, as returned by `mx.data.subscribe`. */
  type Handle = nat

  /** A point in time; the widgets pass start and end times through without computing on them. */
  type Timestamp = int

  /** One step of a nanoflow body; the widgets never look inside. */
  type NanoflowStep = nat

  /**
    A nanoflow property: `{ nanoflow: object[], paramsSpec: {...} }`. A field
    that is absent (undefined) is None; an array, even an empty one, is a
    present value.
   */
  datatype Nanoflow = Nanoflow(body: Option<seq<NanoflowStep>>, paramsSpec: Option<string>)

  /** The host object (`mendix.lib.MxObject`) seen at one moment. An empty GUID means "not persisted". */
  datatype MxObject = MxObject(
    guid: string,
    entity: string,
    attributes: map<string, string>,
    numbers: map<string, int>,
    readOnlyAttributes: set<string>)

  /** `mxObject.get(attr) as string`; an attribute the object does not have reads as the empty string. */
  function Get(obj: MxObject, attr: string): string {
    if attr in obj.attributes then obj.attributes[attr] else ""
  }

  /** `mxObject.get(attr) as number`; an attribute the object does not have reads as 0. */
  function GetNumber(obj: MxObject, attr: string): int {
    if attr in obj.numbers then obj.numbers[attr] else 0
  }

  /** The handler a subscription runs, with the GUID of the object the calendar's closures captured. */
  datatype Callback =
    | FetchData(target: string)
    | SetStartPosition(target: string)
    | SetFirstDay(target: string)
    | HandleSubscriptions

  /** What a subscription listens to: an entity, an object, or one attribute of an object. */
  datatype Channel = Channel(entity: Option<string>, guid: Option<string>, attr: Option<string>, callback: Callback)

  /** The scope of an action: an `MxContext` for one object or an explicit GUID selection. */
  datatype Scope = Context(entity: string, guid: string) | Selection(guids: seq<string>)

  function ContextOf(obj: MxObject): Scope {
    Context(obj.entity, obj.guid)
  }

  datatype AttrValue = Text(text: string) | Time(time: Timestamp)

  /** A request a widget sends to the host. */
  datatype Request =
    | RunMicroflow(microflow: string, scope: Scope)
    | RunNanoflow(nanoflow: Nanoflow, scope: Scope)
    | OpenPage(page: string, scope: Scope, location: string)
    | SetAttribute(guid: string, attr: string, value: AttrValue)
    | RetrieveByXPath(xpath: string)
    | RetrieveByGuid(guid: string)
    | CreateObject(entity: string)

  /**
    The handles `SubscribeAll` gives out from `first` on, one per channel:
    distinct, in the order they are given out, and none below `first`.
   */
  function FreshHandles(first: Handle, count: nat): (hs: seq<Handle>)
    ensures |hs| == count
    ensures forall i, j :: 0 <= i < j < count ==> hs[i] < hs[j]
    ensures forall h :: h in hs <==> first <= h < first + count
  {
    var hs := seq(count, i => first + i);
    assert forall i :: 0 <= i < count ==> hs[i] == first + i;
    assert forall h :: first <= h < first + count ==> hs[h - first] == h && h in hs;
    hs
  }

  /** On a bus whose handles are all below `first`, none of the fresh handles is live. */
  lemma FreshHandlesNotLive(live: map<Handle, Channel>, first: Handle, count: nat)
    requires forall h :: h in live ==> h < first
    ensures forall h :: h in FreshHandles(first, count) ==> h !in live
  {
  }

  /** The subscriptions `SubscribeAll` registers: one handle per channel, from `first` on. */
  function Registered(first: Handle, channels: seq<Channel>): (m: map<Handle, Channel>)
    ensures forall h :: h in m <==> first <= h < first + |channels|
    decreases |channels|
  {
    if channels == [] then map[]
    else
      var n := |channels| - 1;
      Registered(first, channels[..n])[first + n := channels[n]]
  }

  /** Handle `first + i` listens on the `i`-th channel. */
  lemma {:induction false} RegisteredAt(first: Handle, channels: seq<Channel>, i: nat)
    requires i < |channels|
    ensures Registered(first, channels)[first + i] == channels[i]
    decreases |channels|
  {
    var n := |channels| - 1;
    if i < n {
      RegisteredAt(first, channels[..n], i);
    }
  }

  lemma FreshHandlesSnoc(first: Handle, count: nat)
    ensures FreshHandles(first, count + 1) == FreshHandles(first, count) + [first + count]
  {
    var l, r := FreshHandles(first, count + 1), FreshHandles(first, count) + [first + count];
    assert |l| == |r|;
    forall i | 0 <= i < |l|
      ensures l[i] == r[i]
    {
    }
  }

  lemma RegisteredSnoc(first: Handle, channels: seq<Channel>, i: nat)
    requires i < |channels|
    ensures Registered(first, channels[..i + 1]) == Registered(first, channels[..i])[first + i := channels[i]]
  {
    assert channels[..i + 1][..i] == channels[..i];
  }

  lemma UnionUpdate(a: map<Handle, Channel>, b: map<Handle, Channel>, h: Handle, c: Channel)
    ensures (a + b)[h := c] == a + b[h := c]
  {
  }

  function Elements(hs: seq<Handle>): set<Handle> {
    set h | h in hs
  }

  /** The host's notification bus and request log (`window.mx.data`, `window.mx.ui`). */
  class HostBus {
    /** The live subscriptions. */
    var live: map<Handle, Channel>
    /** The next handle `subscribe` returns; handles are never reused. */
    var next: Handle
    /** The requests sent so far, oldest first. */
    var requests: seq<Request>

    ghost predicate Valid()
      reads this
    {
      forall h :: h in live ==> h < next
    }

    constructor ()
      ensures Valid() && live == map[] && requests == []
    {
      live := map[];
      next := 0;
      requests := [];
    }

    /** `mx.data.subscribe(channel)`: a fresh handle, now live. */
    method Subscribe(channel: Channel) returns (h: Handle)
      requires Valid()
      modifies this
      ensures Valid()
      ensures h == old(next) && h !in old(live)
      ensures live == old(live)[h := channel] && next == old(next) + 1
      ensures requests == old(requests)
    {
      h := next;
      live := live[h := channel];
      next := next + 1;
    }

    /** `mx.data.unsubscribe(h)`: the handle is no longer live; an unknown handle is ignored. */
    method Unsubscribe(h: Handle)
      requires Valid()
      modifies this
      ensures Valid()
      ensures live == old(live) - {h} && next == old(next) && requests == old(requests)
    {
      live := live - {h};
    }

    /** Unsubscribing each of the handles in turn. */
    method UnsubscribeAll(handles: seq<Handle>)
      requires Valid()
      modifies this
      ensures Valid()
      ensures live == old(live) - Elements(handles)
      ensures next == old(next) && requests == old(requests)
    {
      var i := 0;
      while i < |handles|
        invariant 0 <= i <= |handles|
        invariant Valid()
        invariant live == old(live) - Elements(handles[..i])
        invariant next == old(next) && requests == old(requests)
      {
        assert Elements(handles[..i + 1]) == Elements(handles[..i]) + {handles[i]} by {
          assert handles[..i + 1] == handles[..i] + [handles[i]];
        }
        Unsubscribe(handles[i]);
        i := i + 1;
      }
      assert handles[..i] == handles;
    }

    /** One `subscribe` per channel, in order; the handles come back in the same order. */
    method SubscribeAll(channels: seq<Channel>) returns (handles: seq<Handle>)
      requires Valid()
      modifies this
      ensures Valid()
      ensures handles == FreshHandles(old(next), |channels|)
      ensures live == old(live) + Registered(old(next), channels)
      ensures next == old(next) + |channels| && requests == old(requests)
    {
      handles := [];
      var i := 0;
      while i < |channels|
        invariant 0 <= i <= |channels|
        invariant Valid()
        invariant handles == FreshHandles(old(next), i)
        invariant live == old(live) + Registered(old(next), channels[..i])
        invariant next == old(next) + i && requests == old(requests)
      {
        ghost var before := live;
        var h := Subscribe(channels[i]);
        handles := handles + [h];
        FreshHandlesSnoc(old(next), i);
        RegisteredSnoc(old(next), channels, i);
        assert live == old(live) + Registered(old(next), channels[..i + 1]) by {
          UnionUpdate(old(live), Registered(old(next), channels[..i]), h, channels[i]);
        }
        i := i + 1;
      }
      assert channels[..i] == channels;
    }

    /** Send one request to the host. */
    method Send(r: Request)
      modifies this`requests
      ensures requests == old(requests) + [r]
    {
      requests := requests + [r];
    }

    /** Send the requests, in order. */
    method SendAll(rs: seq<Request>)
      modifies this`requests
      ensures requests == old(requests) + rs
    {
      requests := requests + rs;
    }
  }
}
