/**
 * The message handler `expose` installs: every incoming request waits until
 * the worker is ready, then calls the exposed function of that name and posts
 * back either a success envelope, carrying the result and the arguments whose
 * positions were listed as transferable, or an error envelope reduced to the
 * error's message and name. A request naming no exposed function closes the
 * worker and posts nothing. `postMessage` itself is outside the `try`: a
 * transfer list it refuses makes it throw, and then nothing is posted.
 *
 * The exposed functions are a table from name to a function of the arguments;
 * each call is taken to finish before the next request is handled.
 */
module Dispatch {
  import opened Common

  /** The structured-clone values requests and results carry. */
  datatype Value = Undefined | Null | Num(n: int) | Str(s: string) | Buffer(id: nat)

  /** An `Error` object as thrown by an exposed function. */
  datatype JsError = JsError(name: string, message: string, stack: string)

  /** What calling an exposed function does: return a value or throw. */
  datatype Outcome = Returned(result: Value) | Threw(error: JsError)

  type Exposed = seq<Value> -> Outcome

  /** `msg.data`: the function name, its arguments and the transferable argument positions. */
  datatype Request = Request(name: string, args: seq<Value>, transferableIndices: seq<int>)

  /** `data` as posted back. */
  datatype Envelope =
    | Success(result: Value, transferables: seq<Value>)   // `{ type: 'success', result, transferables }`
    | Error(message: string, name: string)                // `{ type: 'error', error: { message, name } }`

  /** One `postMessage(data, transfer)` call. */
  datatype Post = Post(data: Envelope, transfer: seq<Value>)

  /**
   * `args.forEach((arg, i) => transferableIndices.includes(i) && transferables.push(arg))`:
   * the arguments whose position is listed, in argument order.
   */
  function Transferables(args: seq<Value>, indices: seq<int>): (ts: seq<Value>)
    ensures |ts| <= |args|
  {
    if args == [] then []
    else
      var init := Transferables(args[..|args| - 1], indices);
      if |args| - 1 in indices then init + [args[|args| - 1]] else init
  }

  /** The positions below `n` listed in `indices`, in increasing order. */
  function Selected(n: nat, indices: seq<int>): (ix: seq<nat>)
    ensures forall k | 0 <= k < |ix| :: ix[k] < n && ix[k] in indices
    ensures forall i: nat | i < n && i in indices :: i in ix
    ensures forall k, l | 0 <= k < l < |ix| :: ix[k] < ix[l]
  {
    if n == 0 then []
    else
      var init := Selected(n - 1, indices);
      if n - 1 in indices then init + [n - 1] else init
  }

  /**
   * The transferables are exactly the arguments at the listed positions, each
   * once and in argument order: positions listed twice, negative or past the
   * last argument add nothing.
   */
  lemma TransferablesAreSelected(args: seq<Value>, indices: seq<int>)
    ensures var ix := Selected(|args|, indices);
      var ts := Transferables(args, indices);
      |ts| == |ix| && forall k | 0 <= k < |ix| :: ts[k] == args[ix[k]]
  {
    TransferablesPrefix(args, indices, |args|);
    assert args[..|args|] == args;
  }

  /** `ts` lists the arguments at the positions `ix`, in that order. */
  ghost predicate Picks(args: seq<Value>, ix: seq<nat>, ts: seq<Value>) {
    |ts| == |ix| && forall k | 0 <= k < |ix| :: ix[k] < |args| && ts[k] == args[ix[k]]
  }

  lemma PicksSnoc(args: seq<Value>, ix: seq<nat>, ts: seq<Value>, i: nat)
    requires i < |args| && Picks(args, ix, ts)
    ensures Picks(args, ix + [i], ts + [args[i]])
  {
    forall k | 0 <= k < |ix| + 1
      ensures (ix + [i])[k] < |args| && (ts + [args[i]])[k] == args[(ix + [i])[k]]
    {
      if k < |ix| {
        assert (ix + [i])[k] == ix[k] && (ts + [args[i]])[k] == ts[k];
      }
    }
  }

  /** The same for the first `n` arguments, by induction on `n`. */
  lemma {:induction false} TransferablesPrefix(args: seq<Value>, indices: seq<int>, n: nat)
    requires n <= |args|
    ensures Picks(args, Selected(n, indices), Transferables(args[..n], indices))
  {
    if n == 0 {
      assert args[..0] == [];
    } else {
      TransferablesPrefix(args, indices, n - 1);
      var ix, ts := Selected(n - 1, indices), Transferables(args[..n - 1], indices);
      assert args[..n][..n - 1] == args[..n - 1] && args[..n][n - 1] == args[n - 1];
      if n - 1 in indices {
        assert Selected(n, indices) == ix + [n - 1];
        assert Transferables(args[..n], indices) == ts + [args[n - 1]];
        PicksSnoc(args, ix, ts, n - 1);
      } else {
        assert Selected(n, indices) == ix;
        assert Transferables(args[..n], indices) == ts;
      }
    }
  }

  /** With no transferable position listed, nothing is transferred. */
  lemma NoIndicesNoTransfer(args: seq<Value>)
    ensures Transferables(args, []) == []
  {
    TransferablesAreSelected(args, []);
  }

  /**
   * What `postMessage(data, transfer)` accepts as a transfer list: transferable
   * objects only (here, array buffers), none listed twice. On any other list it
   * throws and posts nothing.
   */
  predicate TransferOk(ts: seq<Value>) {
    && (forall k | 0 <= k < |ts| :: ts[k].Buffer?)
    && (forall k, l | 0 <= k < l < |ts| :: ts[k] != ts[l])
  }

  /** Every listed argument position holds a buffer, and no buffer sits at two listed positions. */
  predicate ListsDistinctBuffers(req: Request) {
    && (forall i | 0 <= i < |req.args| && i in req.transferableIndices :: req.args[i].Buffer?)
    && (forall i, j | 0 <= i < j < |req.args| && i in req.transferableIndices && j in req.transferableIndices ::
          req.args[i] != req.args[j])
  }

  /** The transfer list a request produces is accepted exactly when its listed arguments are distinct buffers. */
  lemma TransferOkIffDistinctBuffers(req: Request)
    ensures TransferOk(Transferables(req.args, req.transferableIndices)) <==> ListsDistinctBuffers(req)
  {
    var args, listed := req.args, req.transferableIndices;
    TransferablesPrefix(args, listed, |args|);
    assert args[..|args|] == args;
    var ix, ts := Selected(|args|, listed), Transferables(args, listed);
    if ListsDistinctBuffers(req) {
      PickedDistinctBuffers(req, ix, ts);
    }
    if TransferOk(ts) {
      ListedPicked(req, ix, ts);
    }
  }

  /** Picking listed positions, in increasing order, from distinct buffers gives an accepted list. */
  lemma PickedDistinctBuffers(req: Request, ix: seq<nat>, ts: seq<Value>)
    requires Picks(req.args, ix, ts) && ListsDistinctBuffers(req)
    requires forall k | 0 <= k < |ix| :: ix[k] in req.transferableIndices
    requires forall k, l | 0 <= k < l < |ix| :: ix[k] < ix[l]
    ensures TransferOk(ts)
  {
    forall k | 0 <= k < |ts| ensures ts[k].Buffer? {
      assert ts[k] == req.args[ix[k]];
    }
    forall k, l | 0 <= k < l < |ts| ensures ts[k] != ts[l] {
      assert ts[k] == req.args[ix[k]] && ts[l] == req.args[ix[l]];
    }
  }

  /** Conversely, when every listed position is picked, in increasing order, an accepted list shows the listed arguments are distinct buffers. */
  lemma ListedPicked(req: Request, ix: seq<nat>, ts: seq<Value>)
    requires Picks(req.args, ix, ts) && TransferOk(ts)
    requires forall i: nat | i < |req.args| && i in req.transferableIndices :: i in ix
    requires forall k, l | 0 <= k < l < |ix| :: ix[k] < ix[l]
    ensures ListsDistinctBuffers(req)
  {
    var args, listed := req.args, req.transferableIndices;
    forall i | 0 <= i < |args| && i in listed ensures args[i].Buffer? {
      var k :| 0 <= k < |ix| && ix[k] == i;
      assert ts[k] == args[i];
    }
    forall i, j | 0 <= i < j < |args| && i in listed && j in listed ensures args[i] != args[j] {
      var k :| 0 <= k < |ix| && ix[k] == i;
      var l :| 0 <= l < |ix| && ix[l] == j;
      assert ts[k] == args[i] && ts[l] == args[j];
    }
  }

  /**
   * What the handler does with one request: it closes the worker when the name
   * is not an exposed function; `postMessage` throws, and nothing is posted,
   * when the transfer list is not accepted; otherwise one post.
   */
  datatype Answer = NotExposed | PostThrew | Posted(post: Post)

  /** A thrown error keeps only its message and name, and transfers nothing. */
  function Respond(table: map<string, Exposed>, req: Request): (a: Answer)
    ensures a.NotExposed? <==> req.name !in table
    ensures a.PostThrew? ==> req.name in table && table[req.name](req.args).Returned?
    ensures a.Posted? && a.post.data.Success? ==> a.post.transfer == a.post.data.transferables && TransferOk(a.post.transfer)
    ensures a.Posted? && a.post.data.Error? ==> a.post.transfer == []
  {
    if req.name !in table then NotExposed
    else
      match table[req.name](req.args)
      case Returned(result) =>
        var ts := Transferables(req.args, req.transferableIndices);
        if TransferOk(ts) then Posted(Post(Success(result, ts), ts)) else PostThrew
      case Threw(e) => Posted(Post(Error(e.message, e.name), []))
  }

  /**
   * The outcome of an exposed call decides the envelope: a returned value is
   * posted exactly when the listed arguments are distinct buffers, carrying
   * arguments of the request only; a thrown error is always posted, holding
   * only its message and name.
   */
  lemma RespondReports(table: map<string, Exposed>, req: Request)
    requires req.name in table
    ensures var a := Respond(table, req);
      match table[req.name](req.args)
      case Returned(result) =>
        && (a.Posted? <==> ListsDistinctBuffers(req))
        && (a.Posted? ==>
              a.post.data == Success(result, a.post.transfer) && |a.post.transfer| <= |req.args| &&
              forall v | v in a.post.transfer :: v in req.args)
      case Threw(e) => a == Posted(Post(Error(e.message, e.name), []))
  {
    var ts := Transferables(req.args, req.transferableIndices);
    TransferablesAreSelected(req.args, req.transferableIndices);
    TransferOkIffDistinctBuffers(req);
    var ix := Selected(|req.args|, req.transferableIndices);
    assert forall v | v in ts :: v in req.args by {
      forall v | v in ts ensures v in req.args {
        var k :| 0 <= k < |ts| && ts[k] == v;
        assert req.args[ix[k]] == v;
      }
    }
  }

  /** Transferring a string, as a caller listing a non-buffer argument would, posts nothing. */
  lemma StringTransferNotPosted(f: Exposed)
    requires f([Str("nihao")]) == Returned(Str("ni hao"))
    ensures Respond(map["process" := f], Request("process", [Str("nihao")], [0])) == PostThrew
  {
    var req := Request("process", [Str("nihao")], [0]);
    assert Transferables(req.args, req.transferableIndices) == [Str("nihao")] by {
      assert req.args[..0] == [];
    }
  }

  /** The same buffer listed twice posts nothing either. */
  lemma RepeatedBufferNotPosted(f: Exposed)
    requires f([Buffer(7), Buffer(7)]).Returned?
    ensures Respond(map["process" := f], Request("process", [Buffer(7), Buffer(7)], [0, 1])) == PostThrew
  {
    var req := Request("process", [Buffer(7), Buffer(7)], [0, 1]);
    TransferOkIffDistinctBuffers(req);
    assert req.args[0] == req.args[1] && 0 in req.transferableIndices && 1 in req.transferableIndices;
  }

  /** The handler's observable state: whether the worker closed, and what it posted. */
  datatype Channel = Channel(closed: bool, posts: seq<Post>)

  const Open := Channel(false, [])

  /** One request reaching the handler once the worker is ready. */
  function Deliver(table: map<string, Exposed>, ch: Channel, req: Request): (r: Channel)
    ensures r.closed <==> ch.closed || req.name !in table
    ensures ch.closed ==> r == ch
    ensures !ch.closed && Respond(table, req).Posted? ==> r.posts == ch.posts + [Respond(table, req).post]
    ensures !Respond(table, req).Posted? ==> r.posts == ch.posts
  {
    if ch.closed then ch
    else
      match Respond(table, req)
      case NotExposed => ch.(closed := true)
      case PostThrew => ch
      case Posted(p) => ch.(posts := ch.posts + [p])
  }

  /** Requests handled in arrival order. */
  function HandleAll(table: map<string, Exposed>, ch: Channel, reqs: seq<Request>): (r: Channel)
    ensures ch.posts <= r.posts
    ensures ch.closed ==> r == ch
  {
    if reqs == [] then ch
    else Deliver(table, HandleAll(table, ch, reqs[..|reqs| - 1]), reqs[|reqs| - 1])
  }

  /** Requests naming exposed functions never close the worker, whatever they post. */
  lemma {:induction false} ExposedKeepsOpen(table: map<string, Exposed>, reqs: seq<Request>)
    requires forall i | 0 <= i < |reqs| :: reqs[i].name in table
    ensures !HandleAll(table, Open, reqs).closed
  {
    if reqs != [] {
      var init := reqs[..|reqs| - 1];
      assert forall i | 0 <= i < |init| :: init[i] == reqs[i];
      ExposedKeepsOpen(table, init);
    }
  }

  /**
   * When every request names an exposed function and lists only distinct
   * buffers as transferable, each gets exactly one post, in order.
   */
  lemma {:induction false} OnePostPerRequest(table: map<string, Exposed>, reqs: seq<Request>)
    requires forall i | 0 <= i < |reqs| :: reqs[i].name in table && ListsDistinctBuffers(reqs[i])
    ensures var r := HandleAll(table, Open, reqs);
      && !r.closed
      && |r.posts| == |reqs|
      && forall i | 0 <= i < |reqs| :: Respond(table, reqs[i]) == Posted(r.posts[i])
  {
    if reqs != [] {
      var init, last := reqs[..|reqs| - 1], reqs[|reqs| - 1];
      assert forall i | 0 <= i < |init| :: init[i] == reqs[i];
      OnePostPerRequest(table, init);
      TransferOkIffDistinctBuffers(last);
      assert Respond(table, last).Posted?;
    }
  }

  /**
   * The first request naming no exposed function closes the worker: the
   * requests before it are answered, it and every later request get no post.
   */
  lemma {:induction false} UnknownNameCloses(table: map<string, Exposed>, reqs: seq<Request>, k: nat)
    requires k < |reqs| && reqs[k].name !in table
    requires forall i | 0 <= i < k :: reqs[i].name in table
    ensures HandleAll(table, Open, reqs) == HandleAll(table, Open, reqs[..k]).(closed := true)
    decreases |reqs|
  {
    var init := reqs[..|reqs| - 1];
    if |reqs| - 1 == k {
      assert init == reqs[..k];
      ExposedKeepsOpen(table, init);
    } else {
      assert init[k] == reqs[k];
      assert init[..k] == reqs[..k];
      UnknownNameCloses(table, init, k);
    }
  }

  /**
   * The worker side of the channel. Requests that arrive before the worker is
   * ready wait, in arrival order, in `pending`; becoming ready handles them.
   */
  class Dispatcher {
    const table: map<string, Exposed>
    var ready: bool
    var closed: bool
    var pending: seq<Request>
    var posts: seq<Post>
    /** Every request the worker received. */
    ghost var received: seq<Request>

    /**
     * Before readiness nothing is handled and every request waits; after it,
     * the channel is that of handling every received request in order.
     */
    ghost predicate Valid()
      reads this
    {
      && (!ready ==> !closed && posts == [] && pending == received)
      && (ready ==> pending == [] && Channel(closed, posts) == HandleAll(table, Open, received))
    }

    constructor(table: map<string, Exposed>)
      ensures Valid() && this.table == table && !ready && received == []
    {
      this.table := table;
      ready := false;
      closed := false;
      pending := [];
      posts := [];
      received := [];
    }

    /** Builds the transferables list the way `forEach` does, one argument at a time. */
    static method CollectTransferables(args: seq<Value>, indices: seq<int>) returns (ts: seq<Value>)
      ensures ts == Transferables(args, indices)
    {
      ts := [];
      var i := 0;
      while i < |args|
        invariant 0 <= i <= |args|
        invariant ts == Transferables(args[..i], indices)
      {
        assert args[..i + 1][..i] == args[..i];
        if i in indices {
          ts := ts + [args[i]];
        }
        i := i + 1;
      }
      assert args[..i] == args;
    }

    /** The body of `onmessage` after `await readyPromise`. */
    method Handle(req: Request)
      modifies this
      ensures Channel(closed, posts) == Deliver(table, old(Channel(closed, posts)), req)
      ensures ready == old(ready) && pending == old(pending) && received == old(received)
    {
      if closed {
        return;
      }
      if req.name !in table {
        closed := true;
        return;
      }
      var data: Envelope;
      var transfer: seq<Value> := [];
      match table[req.name](req.args) {
        case Returned(result) =>
          transfer := CollectTransferables(req.args, req.transferableIndices);
          if !TransferOk(transfer) {
            // `postMessage` throws on this transfer list: the handler's promise rejects and nothing is posted.
            return;
          }
          data := Success(result, transfer);
        case Threw(e) =>
          data := Error(e.message, e.name);
      }
      posts := posts + [Post(data, transfer)];
    }

    /** A message arrives: it waits while the worker is not ready, and is handled otherwise. */
    method OnMessage(req: Request)
      requires Valid()
      modifies this
      ensures Valid() && received == old(received) + [req] && ready == old(ready)
    {
      received := received + [req];
      if !ready {
        pending := pending + [req];
      } else {
        Handle(req);
      }
    }

    /** `readyPromise` resolves: the waiting requests are handled in arrival order. */
    method BecomeReady()
      requires Valid() && !ready
      modifies this
      ensures Valid() && ready && received == old(received)
    {
      var i := 0;
      while i < |pending|
        invariant 0 <= i <= |pending| && pending == received == old(received)
        invariant Channel(closed, posts) == HandleAll(table, Open, pending[..i])
      {
        assert pending[..i + 1][..i] == pending[..i];
        Handle(pending[i]);
        i := i + 1;
      }
      assert pending[..i] == received;
      pending := [];
      ready := true;
    }
  }
}
