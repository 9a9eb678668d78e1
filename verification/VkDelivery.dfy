/**
 Chunked delivery of a viewing-key response (src/handlers/get_vk.rs) and the status screen
 that reports it (src/main.rs).
 */
module VkDelivery {
  import opened Outcomes
  import opened Words

  const VK_RESPONSE_CHUNK_LEN := 255

  datatype Error = BadState | WrongApduLength | Deny | Refused

  datatype Pending = Pending(bytes: seq<u8>, offset: nat)

  // What the host and the user observe, in order.
  datatype Event =
    | Started(response: seq<u8>)    // a new response was built
    | Chunk(bytes: seq<u8>)         // a chunk left the device
    | Dropped                       // the pending response was discarded
    | Reported(success: bool)       // the status screen reported the end of a display

  // What a request leads to.
  datatype Request =
    // a fresh request: parse, path check, derivation and approval may all refuse
    | Get(response: Result<seq<u8>, Error>)
    | Continue(empty: bool)                  // the next chunk; its payload must be empty
    | ResetContext                           // a context reset by any other instruction

  // ---------------------------------------------------------------- what the host sees

  // What is left to deliver of the response in delivery, and whether its completion is yet
  // to be reported.
  datatype View = View(rest: Option<seq<u8>>, due: bool)

  // A chunk is as long as a reply can be, or all there is.
  function ChunkLength(rest: nat): nat { if rest < 255 then rest else 255 }

  // The view after an event, None for an event that must not happen: chunks come from the
  // front of what is left, as long as they can be, success is reported outside swap mode,
  // right after the chunk that completes a response and nowhere else, and a refusal while
  // nothing is in delivery.
  function Next(swap: bool, v: View, e: Event): Option<View> {
    match e
    case Started(response) => if v.due then None else Some(View(Some(response), false))
    case Dropped => if v.due then None else Some(View(None, false))
    case Chunk(bytes) =>
      if v.due || v.rest.None? || !(bytes <= v.rest.value) || |bytes| != ChunkLength(|v.rest.value|) then None
      else if |bytes| == |v.rest.value| then Some(View(None, !swap))
      else Some(View(Some(v.rest.value[|bytes|..]), false))
    case Reported(success) => if swap || success != v.due || v.rest.Some? then None else Some(View(None, false))
  }

  // The view after the first k events.
  ghost function Watch(swap: bool, log: seq<Event>, k: nat): Option<View>
    requires k <= |log|
  {
    if k == 0 then Some(View(None, false))
    else
      var before := Watch(swap, log, k - 1);
      if before.None? then None else Next(swap, before.value, log[k - 1])
  }

  ghost predicate Faithful(swap: bool, log: seq<Event>) {
    Watch(swap, log, |log|).Some? && !Watch(swap, log, |log|).value.due
  }

  lemma {:induction false} WatchPrefix(swap: bool, log: seq<Event>, e: Event, k: nat)
    requires k <= |log|
    ensures Watch(swap, log + [e], k) == Watch(swap, log, k)
  {
    if k > 0 { WatchPrefix(swap, log, e, k - 1); }
  }

  // ---------------------------------------------------------------- what a request calls for

  // What the context keeps between two instructions: the bytes still to deliver.
  datatype Turn = Turn(events: seq<Event>, rest: Option<seq<u8>>)

  // The next chunk of `rest`, and success once it completes the response outside swap mode.
  function ChunkTurn(swap: bool, rest: seq<u8>): Turn {
    if |rest| <= 255 then Turn([Chunk(rest)] + if swap then [] else [Reported(true)], None)
    else Turn([Chunk(rest[..255])], Some(rest[255..]))
  }

  /**
   What a request adds to the log: a fresh one drops what is pending and delivers the first
   chunk, or refuses; the next chunk is delivered while one is pending and the payload is empty.
   */
  function RequestTurn(swap: bool, rest: Option<seq<u8>>, request: Request): Turn {
    match request
    case Get(Ok(response)) =>
      var t := ChunkTurn(swap, response);
      t.(events := [Dropped, Started(response)] + t.events)
    case Get(Err(e)) => Turn([Dropped] + if !swap && e == Deny then [Reported(false)] else [], None)
    case Continue(empty) => if empty && rest.Some? then ChunkTurn(swap, rest.value) else Turn([], rest)
    case ResetContext => Turn([Dropped], None)
  }

  // The log after the first k requests, and what is left to deliver.
  function LogOf(swap: bool, requests: seq<Request>, k: nat): Turn
    requires k <= |requests|
  {
    if k == 0 then Turn([], None)
    else
      var before := LogOf(swap, requests, k - 1);
      var t := RequestTurn(swap, before.rest, requests[k - 1]);
      t.(events := before.events + t.events)
  }

  // ---------------------------------------------------------------- the code

  class Delivery {
    const swap: bool
    var pending: Option<Pending>
    var finished: bool     // is_vk_display_finished
    var log: seq<Event>

    // `pending` is what remains of the response the log says is being delivered.
    ghost predicate Valid(due: bool)
      reads this
    {
      && (pending.Some? ==>
            pending.value.offset <= |pending.value.bytes|
            && (pending.value.offset < |pending.value.bytes| || pending.value.bytes == []))
      && Watch(swap, log, |log|) == Some(View(Rest(), due))
    }

    ghost function Rest(): Option<seq<u8>>
      reads this
    {
      if pending.None? || pending.value.offset > |pending.value.bytes| then None
      else Some(pending.value.bytes[pending.value.offset..])
    }

    // Between two instructions nothing is left to report, and the flag is down; in swap
    // mode nothing is reported at all.
    ghost predicate Settled()
      reads this
    {
      Valid(false) && (!swap ==> !finished)
    }

    constructor (swap: bool)
      ensures Settled() && this.swap == swap && log == []
    {
      this.swap := swap;
      pending, finished, log := None, false, [];
    }

    method Log(e: Event)
      requires Watch(swap, log, |log|).Some? && Next(swap, Watch(swap, log, |log|).value, e).Some?
      modifies this`log
      ensures log == old(log) + [e]
      ensures Watch(swap, log, |log|) == Next(swap, old(Watch(swap, log, |log|)).value, e)
    {
      WatchPrefix(swap, log, e, |log|);
      log := log + [e];
    }

    // append_pending_vk_chunk: the flag is raised by the chunk that completes the response.
    method AppendChunk() returns (r: Result<seq<u8>, Error>)
      requires Valid(false)
      modifies this
      ensures r.Ok? <==> old(pending).Some?
      ensures r.Ok? ==> log == old(log) + [Chunk(r.value)]
      ensures r.Ok? ==> r.value <= old(Rest()).value
                        && (|r.value| == 255 || (|r.value| < 255 && r.value == old(Rest()).value))
      ensures r.Ok? ==> var completes := Some(r.value) == old(Rest());
                        && Valid(completes && !swap) && (finished <==> old(finished) || completes)
                        && (completes ==> pending == None)
                        && Rest() == if completes then None else Some(old(Rest()).value[|r.value|..])
      ensures r.Err? ==> r.error == BadState && unchanged(this)
    {
      if pending.None? {
        return Err(BadState);
      }
      var p := pending.value;
      var end := if p.offset + VK_RESPONSE_CHUNK_LEN < |p.bytes| then p.offset + VK_RESPONSE_CHUNK_LEN else |p.bytes|;
      var chunk := p.bytes[p.offset..end];
      ghost var rest := p.bytes[p.offset..];
      assert chunk == rest[..|chunk|] && p.bytes[end..] == rest[|chunk|..];
      assert chunk == rest <==> end == |p.bytes|;
      Log(Chunk(chunk));
      pending := Some(Pending(p.bytes, end));
      if end == |p.bytes| {
        finished := true;
        pending := None;
      }
      r := Ok(chunk);
    }

    // A fresh request: whatever was pending is dropped first. A refusal at the screen ends
    // the display too.
    method Get(response: Result<seq<u8>, Error>) returns (r: Result<seq<u8>, Error>)
      requires Settled()
      modifies this
      ensures response.Err? ==> r == response && Valid(false) && pending == None && log == old(log) + [Dropped]
      ensures response.Err? ==> (finished <==> old(finished) || response.error == Deny)
      ensures response.Ok? ==> r.Ok? && log == old(log) + [Dropped, Started(response.value), Chunk(r.value)]
      ensures response.Ok? ==> r.value <= response.value
                               && (|r.value| == 255 || (|r.value| < 255 && r.value == response.value))
      ensures response.Ok? ==> var completes := r.value == response.value;
                               && Valid(completes && !swap) && (finished <==> old(finished) || completes)
                               && Rest() == if completes then None else Some(response.value[|r.value|..])
    {
      pending := None;
      Log(Dropped);
      if response.Err? {
        if response.error == Deny {
          finished := true;
        }
        return response;
      }
      pending := Some(Pending(response.value, 0));
      Log(Started(response.value));
      assert response.value[0..] == response.value;
      r := AppendChunk();
    }

    // The next chunk of the pending response.
    method Continue(empty: bool) returns (r: Result<seq<u8>, Error>)
      requires Settled()
      modifies this
      ensures r.Ok? <==> empty && old(pending).Some?
      ensures r.Ok? ==> log == old(log) + [Chunk(r.value)]
      ensures r.Ok? ==> r.value <= old(Rest()).value
                        && (|r.value| == 255 || (|r.value| < 255 && r.value == old(Rest()).value))
      ensures r.Ok? ==> var completes := Some(r.value) == old(Rest());
                        && Valid(completes && !swap) && (finished <==> old(finished) || completes)
                        && Rest() == if completes then None else Some(old(Rest()).value[|r.value|..])
      ensures r.Err? ==> r.error != Deny && unchanged(this)
    {
      if !empty {
        return Err(WrongApduLength);
      }
      r := AppendChunk();
    }

    method ResetContext()
      requires Settled()
      modifies this
      ensures Settled() && log == old(log) + [Dropped] && pending == None
    {
      pending, finished := None, false;
      Log(Dropped);
    }

    // show_status_and_home_if_needed after GET_VK: outside swap mode the flag is consumed
    // by a success or a refusal.
    method ShowStatus(r: Result<seq<u8>, Error>, ghost due: bool)
      requires Valid(due) && (due ==> r.Ok? && !swap)
      requires !swap ==> (finished <==> due || r == Err(Deny))
      requires r == Err(Deny) ==> pending == None
      modifies this`finished, this`log
      ensures Settled() && log == old(log) + if !swap && old(finished) then [Reported(r.Ok?)] else []
    {
      if !swap && (r.Ok? || r.error == Deny) && finished {
        finished := false;
        Log(Reported(r.Ok?));
      }
    }

    // The turn of a fresh request.
    method ServeGet(response: Result<seq<u8>, Error>)
      requires Settled()
      modifies this
      ensures Settled()
      ensures var t := RequestTurn(swap, old(Rest()), Request.Get(response));
              log == old(log) + t.events && Rest() == t.rest
    {
      var r := Get(response);
      if r.Err? {
        ShowStatus(r, false);
        return;
      }
      ghost var completes := r.value == response.value;
      assert r.value == response.value[..|r.value|];
      assert ChunkTurn(swap, response.value)
             == Turn([Chunk(r.value)] + if completes && !swap then [Reported(true)] else [], Rest());
      ShowStatus(r, !swap && completes);
    }

    // The turn of a continuation.
    method ServeContinue(empty: bool)
      requires Settled()
      modifies this
      ensures Settled()
      ensures var t := RequestTurn(swap, old(Rest()), Request.Continue(empty));
              log == old(log) + t.events && Rest() == t.rest
    {
      ghost var rest := Rest();
      var r := Continue(empty);
      if r.Err? {
        assert RequestTurn(swap, rest, Request.Continue(empty)) == Turn([], rest);
        ShowStatus(r, false);
        assert old(log) + [] == log;
        return;
      }
      ghost var completes := r.value == rest.value;
      assert r.value == rest.value[..|r.value|];
      assert ChunkTurn(swap, rest.value)
             == Turn([Chunk(r.value)] + if completes && !swap then [Reported(true)] else [], Rest());
      ShowStatus(r, !swap && completes);
    }

    // One turn of the command loop.
    method Serve(request: Request)
      requires Settled()
      modifies this
      ensures Settled()
      ensures var t := RequestTurn(swap, old(Rest()), request); log == old(log) + t.events && Rest() == t.rest
    {
      match request {
        case Get(response) => ServeGet(response);
        case Continue(empty) => ServeContinue(empty);
        case ResetContext => ResetContext();
      }
    }
  }

  /**
   Any interleaving of requests: each is answered as the bytes still pending call for, the
   chunks are faithful and the reports exact throughout.
   */
  method Run(swap: bool, requests: seq<Request>) returns (log: seq<Event>)
    ensures log == LogOf(swap, requests, |requests|).events
    ensures Faithful(swap, log)
  {
    var d := new Delivery(swap);
    for i := 0 to |requests|
      invariant fresh(d) && d.Settled() && d.swap == swap
      invariant Turn(d.log, d.Rest()) == LogOf(swap, requests, i)
    {
      d.Serve(requests[i]);
    }
    log := d.log;
  }

  // ---------------------------------------------------------------- whole runs

  // The bytes of the chunks among events i up to j.
  ghost function ChunkBytes(log: seq<Event>, i: nat, j: nat): seq<u8>
    requires i <= j <= |log|
    decreases j
  {
    if i == j then [] else ChunkBytes(log, i, j - 1) + if log[j - 1].Chunk? then log[j - 1].bytes else []
  }

  // A response started at i and only chunks followed it up to j.
  ghost predicate InDelivery(log: seq<Event>, i: nat, j: nat) {
    i < j <= |log| && log[i].Started? && forall k :: i < k < j ==> log[k].Chunk?
  }

  lemma {:induction false} WatchedBefore(swap: bool, log: seq<Event>, k: nat, n: nat)
    requires k <= n <= |log| && Watch(swap, log, n).Some?
    ensures Watch(swap, log, k).Some?
    decreases n - k
  {
    if k < n { WatchedBefore(swap, log, k, n - 1); }
  }

  // While a response is in delivery, what was delivered and what remains make it up.
  lemma {:induction false} DeliveredAndRest(swap: bool, log: seq<Event>, i: nat, j: nat)
    requires Faithful(swap, log) && InDelivery(log, i, j)
    ensures Watch(swap, log, j).Some?
    ensures var v := Watch(swap, log, j).value;
            && ChunkBytes(log, i + 1, j) <= log[i].response
            && (v.rest.Some? ==> !v.due && ChunkBytes(log, i + 1, j) + v.rest.value == log[i].response)
            && (v.rest.Some? && j > i + 1 ==> v.rest.value != [])
            && (v.rest.None? ==> v.due == !swap && ChunkBytes(log, i + 1, j) == log[i].response)
    decreases j
  {
    WatchedBefore(swap, log, j, |log|);
    WatchedBefore(swap, log, j - 1, |log|);
    if j > i + 1 {
      DeliveredAndRest(swap, log, i, j - 1);
      Advance(ChunkBytes(log, i + 1, j - 1), Watch(swap, log, j - 1).value.rest.value, log[j - 1].bytes,
              log[i].response);
    }
  }

  lemma Advance(sent: seq<u8>, rest: seq<u8>, bytes: seq<u8>, response: seq<u8>)
    requires sent + rest == response && bytes <= rest
    ensures sent + bytes <= response && (sent + bytes) + rest[|bytes|..] == response
    ensures |bytes| == |rest| ==> sent + bytes == response
  {}

  // Success is reported exactly when it is due.
  lemma DueIsReported(swap: bool, log: seq<Event>, j: nat)
    requires Faithful(swap, log) && j <= |log| && Watch(swap, log, j).Some?
    ensures Watch(swap, log, j).value.due <==> j < |log| && log[j] == Reported(true)
  {
    if j < |log| { WatchedBefore(swap, log, j + 1, |log|); }
  }

  // What is left to deliver tells whether the chunks are the whole response.
  lemma WholeWhenDue(swap: bool, log: seq<Event>, i: nat, j: nat)
    requires Faithful(swap, log) && InDelivery(log, i, j) && i + 1 < j && !swap
    ensures Watch(swap, log, j).Some?
    ensures Watch(swap, log, j).value.due <==> ChunkBytes(log, i + 1, j) == log[i].response
  {
    DeliveredAndRest(swap, log, i, j);
    var v := Watch(swap, log, j).value;
    if v.rest.Some? {
      assert |ChunkBytes(log, i + 1, j) + v.rest.value| == |ChunkBytes(log, i + 1, j)| + |v.rest.value|;
    }
  }

  /**
   The chunks that follow the start of a response concatenate to a prefix of it. Outside
   swap mode success is reported after one of them exactly when they are the whole response.
   */
  lemma ChunksArePrefix(swap: bool, log: seq<Event>, i: nat, j: nat)
    requires Faithful(swap, log) && InDelivery(log, i, j) && i + 1 < j
    ensures ChunkBytes(log, i + 1, j) <= log[i].response
    ensures !swap ==> (j < |log| && log[j] == Reported(true) <==> ChunkBytes(log, i + 1, j) == log[i].response)
  {
    DeliveredAndRest(swap, log, i, j);
    if !swap {
      WholeWhenDue(swap, log, i, j);
      DueIsReported(swap, log, j);
    }
  }

  // A response in delivery, or completed and not yet reported, was started and nothing but
  // its chunks followed.
  lemma {:induction false} ViewHasStart(swap: bool, log: seq<Event>, j: nat) returns (i: nat)
    requires j <= |log| && Watch(swap, log, j).Some?
    requires Watch(swap, log, j).value.rest.Some? || Watch(swap, log, j).value.due
    ensures InDelivery(log, i, j)
  {
    WatchedBefore(swap, log, j - 1, j);
    if log[j - 1].Started? {
      i := j - 1;
    } else {
      i := ViewHasStart(swap, log, j - 1);
    }
  }

  /**
   Success is never reported in swap mode, and otherwise only right after the chunks that
   make up the whole of the response they follow.
   */
  lemma SuccessMeansComplete(swap: bool, log: seq<Event>, j: nat) returns (i: nat)
    requires Faithful(swap, log) && j < |log| && log[j] == Reported(true)
    ensures !swap && InDelivery(log, i, j) && i + 1 < j && ChunkBytes(log, i + 1, j) == log[i].response
  {
    WatchedBefore(swap, log, j + 1, |log|);
    WatchedBefore(swap, log, j, |log|);
    i := ViewHasStart(swap, log, j);
    DeliveredAndRest(swap, log, i, j);
  }
}
