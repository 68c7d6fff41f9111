/**
 * The chat logger: a transparent wrapper around a chat session that records
 * each user turn and each model response in a session's history.
 */
module ChatLogging {
  import opened Wrappers
  import opened Gollm
  import opened Sessions

  /** One item of a response stream. */
  datatype StreamItem = Resp(r: Reply) | Fail(e: Error)

  /** What the logger does, in order: hands a record to `writeRecord`, calls
      the wrapped chat with the contents, or yields an item to its consumer. */
  datatype Event = Logged(msg: ChatMessage) | Forwarded(contents: seq<Content>) | Yielded(item: StreamItem)

  function UserRecord(contents: seq<Content>): ChatMessage {
    ChatMessage("user", contents, None)
  }

  function ModelRecord(r: Reply): ChatMessage {
    ChatMessage("model", [], Some(r))
  }

  /** The events the wrapped iterator produces for one underlying item. */
  function ItemEvents(x: StreamItem): seq<Event> {
    match x
    case Fail(_) => [Yielded(x)]
    case Resp(r) => [Logged(ModelRecord(r)), Yielded(x)]
  }

  function StreamTrace(xs: seq<StreamItem>): seq<Event> {
    if |xs| == 0 then [] else StreamTrace(xs[..|xs| - 1]) + ItemEvents(xs[|xs| - 1])
  }

  /** The records handed to `writeRecord` in a trace, in order. */
  function Writes(t: seq<Event>): seq<ChatMessage> {
    if |t| == 0 then []
    else Writes(t[..|t| - 1]) + (if t[|t| - 1].Logged? then [t[|t| - 1].msg] else [])
  }

  /** The items yielded to the consumer in a trace, in order. */
  function Yields(t: seq<Event>): seq<StreamItem> {
    if |t| == 0 then []
    else Yields(t[..|t| - 1]) + (if t[|t| - 1].Yielded? then [t[|t| - 1].item] else [])
  }

  /** The model records of the responses of a stream, errors skipped. */
  function ModelRecords(xs: seq<StreamItem>): seq<ChatMessage> {
    if |xs| == 0 then []
    else ModelRecords(xs[..|xs| - 1]) + (if xs[|xs| - 1].Resp? then [ModelRecord(xs[|xs| - 1].r)] else [])
  }

  lemma {:induction false} WritesAppend(a: seq<Event>, b: seq<Event>)
    ensures Writes(a + b) == Writes(a) + Writes(b)
    decreases |b|
  {
    if |b| == 0 {
      assert a + b == a;
    } else {
      assert (a + b)[..|a + b| - 1] == a + b[..|b| - 1];
      WritesAppend(a, b[..|b| - 1]);
    }
  }

  lemma {:induction false} YieldsAppend(a: seq<Event>, b: seq<Event>)
    ensures Yields(a + b) == Yields(a) + Yields(b)
    decreases |b|
  {
    if |b| == 0 {
      assert a + b == a;
    } else {
      assert (a + b)[..|a + b| - 1] == a + b[..|b| - 1];
      YieldsAppend(a, b[..|b| - 1]);
    }
  }

  lemma ItemEventsEffect(x: StreamItem)
    ensures Yields(ItemEvents(x)) == [x]
    ensures Writes(ItemEvents(x)) == (if x.Resp? then [ModelRecord(x.r)] else [])
  {
    var e := ItemEvents(x);
    if x.Resp? {
      assert e[..1] == [Logged(ModelRecord(x.r))];
      assert e[..1][..0] == [];
      assert Yields(e[..1]) == [];
      assert Writes(e[..1]) == [ModelRecord(x.r)];
    } else {
      assert e[..0] == [];
    }
  }

  /** The consumer sees exactly the underlying items, in their order. */
  lemma {:induction false} StreamYieldsItems(xs: seq<StreamItem>)
    ensures Yields(StreamTrace(xs)) == xs
  {
    if |xs| > 0 {
      var init, x := xs[..|xs| - 1], xs[|xs| - 1];
      assert StreamTrace(xs) == StreamTrace(init) + ItemEvents(x);
      StreamYieldsItems(init);
      YieldsAppend(StreamTrace(init), ItemEvents(x));
      ItemEventsEffect(x);
      assert Yields(StreamTrace(xs)) == init + [x];
      assert xs == init + [x];
    }
  }

  /** Exactly one model record per response, none per error, in stream order. */
  lemma {:induction false} StreamWritesResponses(xs: seq<StreamItem>)
    ensures Writes(StreamTrace(xs)) == ModelRecords(xs)
  {
    if |xs| > 0 {
      var x := xs[|xs| - 1];
      StreamWritesResponses(xs[..|xs| - 1]);
      WritesAppend(StreamTrace(xs[..|xs| - 1]), ItemEvents(x));
      ItemEventsEffect(x);
    }
  }

  /** Every response is logged immediately before it is yielded. */
  lemma {:induction false} LoggedBeforeYielded(xs: seq<StreamItem>, i: int, r: Reply)
    requires 0 <= i < |StreamTrace(xs)| && StreamTrace(xs)[i] == Yielded(Resp(r))
    ensures i > 0 && StreamTrace(xs)[i - 1] == Logged(ModelRecord(r))
  {
    var init := StreamTrace(xs[..|xs| - 1]);
    var x := xs[|xs| - 1];
    if i < |init| {
      LoggedBeforeYielded(xs[..|xs| - 1], i, r);
    } else {
      assert ItemEvents(x)[i - |init|] == Yielded(Resp(r));
    }
  }

  /** One item's step of the persisted history. */
  lemma PersistStep(h: Option<seq<Record>>, trace: seq<Event>, item: StreamItem, disks: nat -> Disk)
    ensures |Writes(trace + ItemEvents(item))| == |Writes(trace)| + (if item.Resp? then 1 else 0)
    ensures item.Resp? ==>
      Persisted(h, Writes(trace + ItemEvents(item)), disks, 0) ==
      AppendOutcome(Persisted(h, Writes(trace), disks, 0), ModelRecord(item.r), disks(|Writes(trace)|))
    ensures item.Fail? ==> Persisted(h, Writes(trace + ItemEvents(item)), disks, 0) == Persisted(h, Writes(trace), disks, 0)
  {
    WritesAppend(trace, ItemEvents(item));
    ItemEventsEffect(item);
    if item.Resp? {
      PersistedSnoc(h, Writes(trace), ModelRecord(item.r), disks);
    } else {
      assert Writes(trace) + [] == Writes(trace);
    }
  }

  /** How many items the consumer receives when its `yield` returns false on
      the item at index `stopAt`. */
  function DeliveredCount(n: nat, stopAt: nat): nat {
    if stopAt < n then stopAt + 1 else n
  }

  class ChatLogger {
    const store: Session?

    constructor (store: Session?)
      ensures this.store == store
    {
      this.store := store;
    }

    /** `writeRecord`: appends to the store when there is one; a failed write
        is swallowed. */
    method WriteRecord(m: ChatMessage, disk: Disk)
      modifies store
      ensures store != null ==>
        store.history == AppendOutcome(old(store.history), m, disk) && store.metadata == old(store.metadata)
    {
      if store == null {
        return;
      }
      var _ := store.AddChatMessage(m, disk);
    }

    /** `Send`: logs the user turn, forwards it, and logs the response when
        there is one. `reply` is the wrapped chat's answer; the `j`-th write
        meets the disk `disks(j)`. */
    method Send(contents: seq<Content>, reply: Result<Reply, Error>, disks: nat -> Disk)
      returns (resp: Option<Reply>, err: Option<Error>, trace: seq<Event>)
      modifies store
      ensures trace == [Logged(UserRecord(contents)), Forwarded(contents)] +
                       (if reply.Ok? then [Logged(ModelRecord(reply.value))] else [])
      ensures reply.Ok? ==> resp == Some(reply.value) && err == None
      ensures reply.Err? ==> resp == None && err == Some(reply.error)
      ensures store != null ==>
        store.history == Persisted(old(store.history), Writes(trace), disks, 0) &&
        store.metadata == old(store.metadata)
    {
      WriteRecord(UserRecord(contents), disks(0));
      trace := [Logged(UserRecord(contents)), Forwarded(contents)];
      if store != null {
        PersistedSnoc(old(store.history), [], UserRecord(contents), disks);
      }
      assert [] + [UserRecord(contents)] == [UserRecord(contents)];
      assert Writes(trace) == [UserRecord(contents)] by {
        assert trace[..1] == [Logged(UserRecord(contents))];
        assert trace[..1][..0] == [];
        assert Writes(trace[..1]) == [UserRecord(contents)];
      }
      if reply.Err? {
        return None, Some(reply.error), trace;
      }
      WriteRecord(ModelRecord(reply.value), disks(1));
      if store != null {
        PersistedSnoc(old(store.history), [UserRecord(contents)], ModelRecord(reply.value), disks);
      }
      ghost var prev := trace;
      trace := trace + [Logged(ModelRecord(reply.value))];
      assert trace[..|trace| - 1] == prev;
      assert Writes(trace) == [UserRecord(contents), ModelRecord(reply.value)];
      resp, err := Some(reply.value), None;
    }

    /** `SendStreaming`: logs the user turn and forwards it; the wrapped
        chat's failure is returned with no iterator. */
    method SendStreaming(contents: seq<Content>, underlying: Result<seq<StreamItem>, Error>, disk: Disk)
      returns (iter: Option<seq<StreamItem>>, err: Option<Error>, trace: seq<Event>)
      modifies store
      ensures trace == [Logged(UserRecord(contents)), Forwarded(contents)]
      ensures underlying.Err? ==> iter == None && err == Some(underlying.error)
      ensures underlying.Ok? ==> iter == Some(underlying.value) && err == None
      ensures store != null ==>
        store.history == AppendOutcome(old(store.history), UserRecord(contents), disk) &&
        store.metadata == old(store.metadata)
    {
      WriteRecord(UserRecord(contents), disk);
      trace := [Logged(UserRecord(contents)), Forwarded(contents)];
      if underlying.Err? {
        return None, Some(underlying.error), trace;
      }
      iter, err := Some(underlying.value), None;
    }

    /** The wrapped iterator run to the end or until the consumer stops:
        each response is logged and then yielded, each error yielded as is. */
    method Iterate(items: seq<StreamItem>, stopAt: nat, disks: nat -> Disk)
      returns (delivered: seq<StreamItem>, trace: seq<Event>)
      modifies store
      ensures delivered == items[..DeliveredCount(|items|, stopAt)]
      ensures trace == StreamTrace(delivered)
      ensures store != null ==>
        store.history == Persisted(old(store.history), Writes(trace), disks, 0) &&
        store.metadata == old(store.metadata)
    {
      delivered, trace := [], [];
      ghost var h0 := if store != null then store.history else None;
      var written := 0;
      var i := 0;
      while i < |items|
        invariant 0 <= i <= |items| && i <= stopAt
        invariant delivered == items[..i]
        invariant trace == StreamTrace(delivered)
        invariant written == |Writes(trace)|
        invariant store != null ==> h0 == old(store.history)
        invariant store != null ==>
          store.history == Persisted(old(store.history), Writes(trace), disks, 0) &&
          store.metadata == old(store.metadata)
      {
        var item := items[i];
        PersistStep(h0, trace, item, disks);
        written := Relay(item, written, disks);
        assert (delivered + [item])[..|delivered|] == delivered;
        assert StreamTrace(delivered + [item]) == trace + ItemEvents(item);
        assert items[..i + 1] == delivered + [item];
        trace := trace + ItemEvents(item);
        delivered := delivered + [item];
        if i == stopAt {
          i := i + 1;
          break;
        }
        i := i + 1;
      }
    }

    /** The callback the wrapped iterator passes down, up to its `yield`: a
        response is logged as the `written`-th write. */
    method Relay(item: StreamItem, written: nat, disks: nat -> Disk) returns (next: nat)
      modifies store
      ensures next == written + (if item.Resp? then 1 else 0)
      ensures store != null ==> store.metadata == old(store.metadata)
      ensures store != null && item.Resp? ==>
        store.history == AppendOutcome(old(store.history), ModelRecord(item.r), disks(written))
      ensures store != null && item.Fail? ==> store.history == old(store.history)
    {
      next := written;
      if item.Resp? {
        WriteRecord(ModelRecord(item.r), disks(written));
        next := written + 1;
      }
    }

    /** `SetFunctionDefinitions` forwards the definitions and the result. */
    function SetFunctionDefinitions(defs: seq<FunctionDefinition>, underlying: seq<FunctionDefinition> -> Option<Error>): (r: Option<Error>)
      ensures r == underlying(defs)
    {
      underlying(defs)
    }

    /** `IsRetryableError` forwards the error and the verdict. */
    function IsRetryableError(err: Option<Error>, underlying: Option<Error> -> bool): (r: bool)
      ensures r == underlying(err)
    {
      underlying(err)
    }

    /** `Initialize` forwards the messages and the result. */
    function Initialize(messages: seq<ChatMessage>, underlying: seq<ChatMessage> -> Option<Error>): (r: Option<Error>)
      ensures r == underlying(messages)
    {
      underlying(messages)
    }
  }

  /** Every response of the stream can be encoded. */
  predicate RepliesEncodable(xs: seq<StreamItem>) {
    forall k :: 0 <= k < |xs| && xs[k].Resp? ==> xs[k].r.encodable
  }

  /** Persisted history and delivered stream agree in order: with a healthy
      disk, the store is written the model records of the delivered
      responses that encode, in delivery order; when every response encodes
      and the file does not end torn, the history gains all of them. */
  lemma PersistedMatchesDelivered(h: Option<seq<Record>>, delivered: seq<StreamItem>, disks: nat -> Disk)
    requires forall k :: 0 <= k < |delivered| ==> DiskHealthy(disks(k))
    ensures Persisted(h, Writes(StreamTrace(delivered)), disks, 0) ==
            if ModelRecords(delivered) == [] then h
            else Some(Joined(if h.Some? then h.value else [], Records(Encodables(ModelRecords(delivered)))))
    ensures RepliesEncodable(delivered) && !EndsTorn(if h.Some? then h.value else []) ==>
            Persisted(h, Writes(StreamTrace(delivered)), disks, 0) ==
            if ModelRecords(delivered) == [] then h
            else Some((if h.Some? then h.value else []) + Records(ModelRecords(delivered)))
  {
    StreamWritesResponses(delivered);
    ModelRecordsEncodable(delivered);
    PersistedInOrder(h, ModelRecords(delivered), disks, 0);
  }

  /** The model records all encode exactly when the responses all do. */
  lemma {:induction false} ModelRecordsEncodable(xs: seq<StreamItem>)
    ensures |ModelRecords(xs)| <= |xs|
    ensures (forall k :: 0 <= k < |ModelRecords(xs)| ==> EncodableMessage(ModelRecords(xs)[k])) <==> RepliesEncodable(xs)
  {
    if |xs| > 0 {
      var init, x := xs[..|xs| - 1], xs[|xs| - 1];
      ModelRecordsEncodable(init);
      var prev := ModelRecords(init);
      assert forall k :: 0 <= k < |init| ==> init[k] == xs[k];
      if x.Resp? {
        assert ModelRecords(xs) == prev + [ModelRecord(x.r)];
        assert EncodableMessage(ModelRecord(x.r)) == x.r.encodable;
        assert ModelRecords(xs)[|prev|] == ModelRecord(x.r);
        assert forall k :: 0 <= k < |prev| ==> ModelRecords(xs)[k] == prev[k];
      } else {
        assert ModelRecords(xs) == prev;
      }
      assert RepliesEncodable(xs) <==> RepliesEncodable(init) && (x.Resp? ==> x.r.encodable);
    }
  }
}
