/** The bulk endpoint (vstutils/api/endpoint.py): operations are executed in order, later ones
    may refer to the results of earlier ones, and a POST is one transaction. */
module Endpoint {
  import opened Common

  /** An operation as it came, and one with its references filled in. */
  type Raw = string
  type Operation = string
  type Message = string

  datatype Reply = Reply(status: int, data: string)

  /** A valid operation, and the variable its result is bound to (let). */
  datatype Prepared = Prepared(operation: Operation, binding: Option<string>)

  /** What executing an operation does: the inner reply (None: it raised), the new state of the
      database, and the notifications it queued. */
  datatype Outcome<St> = Outcome(reply: Option<Reply>, db: St, messages: seq<Message>)

  /** validate fills in the templates from the results so far and the variables (None: not
      valid); execute is the inner request; represent makes a result of the inner reply (None:
      it raised); fault is the result of an operation that is not valid or raised. */
  datatype Site<!St> = Site(validate: (Raw, seq<Reply>, map<string, Reply>) -> Option<Prepared>,
                            execute: (Operation, St) -> Outcome<St>,
                            represent: Reply -> Option<Reply>,
                            fault: Raw -> string)

  /** results, variables, database and notification queue while a bulk request is executed. */
  datatype Context<St> = Context(results: seq<Reply>, variables: map<string, Reply>, db: St, queue: seq<Message>)

  predicate Succeeded(r: Reply)
  {
    100 <= r.status < 400
  }

  // ---- one operation ----

  /** Executing a prepared operation; nothing in it refers to other operations any more. */
  function Perform<St>(site: Site<St>, raw: Raw, p: Option<Prepared>, db: St): Outcome<St>
  {
    if p.None? then Outcome(Some(Reply(500, site.fault(raw))), db, []) else
    var o := site.execute(p.value.operation, db);
    o.(reply := Some(ResultOf(site, raw, o.reply)))
  }

  function ResultOf<St>(site: Site<St>, raw: Raw, inner: Option<Reply>): Reply
  {
    if inner.Some? && site.represent(inner.value).Some? then site.represent(inner.value).value
    else Reply(500, site.fault(raw))
  }

  /** A variable and the inner reply it is bound to. */
  type Binding = (string, Reply)

  /** The binding an operation makes: when the inner request gave a reply, and before it is
      known whether that can be represented. */
  function Bound<St>(site: Site<St>, p: Option<Prepared>, db: St): Option<Binding>
  {
    if p.None? || p.value.binding.None? then None else
    var inner := site.execute(p.value.operation, db).reply;
    if inner.None? then None else Some((p.value.binding.value, inner.value))
  }

  function Operate<St>(site: Site<St>, c: Context<St>, raw: Raw): Context<St>
  {
    var p := site.validate(raw, c.results, c.variables);
    var o := Perform(site, raw, p, c.db);
    Context(c.results + [o.reply.value], Rebound(c.variables, Bound(site, p, c.db)), o.db, c.queue + o.messages)
  }

  function Rebound(variables: map<string, Reply>, bound: Option<Binding>): map<string, Reply>
  {
    if bound.Some? then variables[bound.value.0 := bound.value.1] else variables
  }

  /** The context after the first i operations. */
  function After<St>(site: Site<St>, c: Context<St>, raws: seq<Raw>, i: nat): (r: Context<St>)
    requires i <= |raws|
    ensures |r.results| == |c.results| + i
  {
    if i == 0 then c else Operate(site, After(site, c, raws, i - 1), raws[i - 1])
  }

  function Start<St>(db: St, queue: seq<Message>): Context<St>
  {
    Context([], map[], db, queue)
  }

  // ---- dataflow ----

  /** Operation i with its references filled in. */
  function Resolved<St>(site: Site<St>, c: Context<St>, raws: seq<Raw>, i: nat): Option<Prepared>
    requires i < |raws|
  {
    var before := After(site, c, raws, i);
    site.validate(raws[i], before.results, before.variables)
  }

  /** The binding that operation i makes. */
  function BoundAt<St>(site: Site<St>, c: Context<St>, raws: seq<Raw>, i: nat): Option<Binding>
    requires i < |raws|
  {
    Bound(site, Resolved(site, c, raws, i), After(site, c, raws, i).db)
  }

  /** Operations issued one by one, each on the state the previous one left: the results, the
      database, and the notifications. */
  function OneByOne<St>(site: Site<St>, raws: seq<Raw>, ps: seq<Option<Prepared>>, db: St, queue: seq<Message>)
    : (seq<Reply>, St, seq<Message>)
    requires |raws| == |ps|
  {
    if raws == [] then ([], db, queue) else
    var n := |raws| - 1;
    var (replies, before, messages) := OneByOne(site, raws[..n], ps[..n], db, queue);
    if ps[n].None? then (replies + [Reply(500, site.fault(raws[n]))], before, messages) else
    var o := site.execute(ps[n].value.operation, before);
    var shown := if o.reply.Some? then site.represent(o.reply.value) else None;
    (replies + [if shown.Some? then shown.value else Reply(500, site.fault(raws[n]))], o.db, messages + o.messages)
  }

  /** What operation i does, said of the site alone: a valid one has the effect its inner request
      has on the database as the operations before left it, queues its notifications, and gives
      the representation of the inner reply, or 500; an invalid one does nothing and gives 500. */
  lemma OperationTakesEffect<St>(site: Site<St>, c: Context<St>, raws: seq<Raw>, i: nat)
    requires i < |raws|
    ensures var before, after := After(site, c, raws, i), After(site, c, raws, i + 1);
            var p := site.validate(raws[i], before.results, before.variables);
            && after.results[..|before.results|] == before.results && |after.results| == |before.results| + 1
            && var result := after.results[|before.results|];
               if p.None? then
                 after.db == before.db && after.queue == before.queue && after.variables == before.variables
                 && result.status == 500
               else
                 var done := site.execute(p.value.operation, before.db);
                 && after.db == done.db
                 && after.queue == before.queue + done.messages
                 && after.variables == (if p.value.binding.Some? && done.reply.Some?
                                        then before.variables[p.value.binding.value := done.reply.value]
                                        else before.variables)
                 && (done.reply.Some? && site.represent(done.reply.value).Some? ==>
                       result == site.represent(done.reply.value).value)
                 && (done.reply.None? || site.represent(done.reply.value).None? ==> result.status == 500)
  {
  }

  /** Nothing is done, and nothing known, before the first operation. */
  lemma StartsWithNothing<St>(site: Site<St>, raws: seq<Raw>, db: St, queue: seq<Message>)
    ensures After(site, Start(db, queue), raws, 0) == Context([], map[], db, queue)
  {
  }

  lemma {:induction false} ResultsGrow<St>(site: Site<St>, c: Context<St>, raws: seq<Raw>, i: nat, j: nat)
    requires i <= j <= |raws|
    ensures After(site, c, raws, i).results == After(site, c, raws, j).results[..|c.results| + i]
  {
    if i < j {
      ResultsGrow(site, c, raws, i, j - 1);
    } else {
      var r := After(site, c, raws, i).results;
      assert r[..|r|] == r;
    }
  }

  /** The bindings of the first i operations, by position. */
  function Bindings<St>(site: Site<St>, c: Context<St>, raws: seq<Raw>, i: nat): (r: seq<Option<Binding>>)
    requires i <= |raws|
    ensures |r| == i
    ensures forall k :: 0 <= k < i ==> r[k] == BoundAt(site, c, raws, k)
  {
    if i == 0 then [] else Bindings(site, c, raws, i - 1) + [BoundAt(site, c, raws, i - 1)]
  }

  predicate Binds(b: Option<Binding>, name: string)
  {
    b.Some? && b.value.0 == name
  }

  /** The last position at which a name was bound. */
  function LastBound(bindings: seq<Option<Binding>>, name: string): (r: Option<nat>)
    ensures r.Some? ==> r.value < |bindings| && Binds(bindings[r.value], name)
                        && forall k :: r.value < k < |bindings| ==> !Binds(bindings[k], name)
    ensures r.None? ==> forall k :: 0 <= k < |bindings| ==> !Binds(bindings[k], name)
  {
    if bindings == [] then None
    else if Binds(bindings[|bindings| - 1], name) then Some(|bindings| - 1)
    else LastBound(bindings[..|bindings| - 1], name)
  }

  /** A variable means what was bound to it last. */
  ghost predicate LatestBindings(bindings: seq<Option<Binding>>, variables: map<string, Reply>)
  {
    forall name :: var last := LastBound(bindings, name);
      (name in variables <==> last.Some?) && (last.Some? ==> variables[name] == bindings[last.value].value.1)
  }

  lemma Rebinding(bindings: seq<Option<Binding>>, variables: map<string, Reply>, bound: Option<Binding>)
    requires LatestBindings(bindings, variables)
    ensures LatestBindings(bindings + [bound], Rebound(variables, bound))
  {
    assert (bindings + [bound])[..|bindings|] == bindings;
  }

  lemma {:induction false} VariablesAreLatest<St>(site: Site<St>, raws: seq<Raw>, db: St, queue: seq<Message>, i: nat)
    requires i <= |raws|
    ensures var c := Start(db, queue);
            LatestBindings(Bindings(site, c, raws, i), After(site, c, raws, i).variables)
  {
    if i > 0 {
      var c := Start(db, queue);
      VariablesAreLatest(site, raws, db, queue, i - 1);
      Rebinding(Bindings(site, c, raws, i - 1), After(site, c, raws, i - 1).variables, BoundAt(site, c, raws, i - 1));
    }
  }

  function AllResolved<St>(site: Site<St>, c: Context<St>, raws: seq<Raw>, n: nat): (ps: seq<Option<Prepared>>)
    requires n <= |raws|
    ensures |ps| == n
  {
    if n == 0 then [] else AllResolved(site, c, raws, n - 1) + [Resolved(site, c, raws, n - 1)]
  }

  /** A bulk request gives the results, and leaves the database and the notifications, that
      issuing its operations one by one gives once their references are filled in. */
  lemma {:induction false} BatchIsOneByOne<St>(site: Site<St>, raws: seq<Raw>, db: St, queue: seq<Message>, n: nat)
    requires n <= |raws|
    ensures var c := Start(db, queue);
            var end := After(site, c, raws, n);
            OneByOne(site, raws[..n], AllResolved(site, c, raws, n), db, queue) == (end.results, end.db, end.queue)
  {
    if n > 0 {
      var c := Start(db, queue);
      var ps := AllResolved(site, c, raws, n);
      var before := After(site, c, raws, n - 1);
      BatchIsOneByOne(site, raws, db, queue, n - 1);
      assert raws[..n][..n - 1] == raws[..n - 1] && ps[..n - 1] == AllResolved(site, c, raws, n - 1);
      assert before.queue + [] == before.queue;
    }
  }

  /** The references of operation i are filled in from exactly the results of the operations
      before it and the latest bindings among them, whether those succeeded or not; result i is
      operation i's, and what operation i binds is the inner reply that result i represents. */
  lemma ReferencesComeFromBefore<St>(site: Site<St>, raws: seq<Raw>, db: St, queue: seq<Message>, i: nat)
    requires i < |raws|
    ensures var c := Start(db, queue);
            var before := After(site, c, raws, i);
            var results := After(site, c, raws, |raws|).results;
            && Resolved(site, c, raws, i) == site.validate(raws[i], results[..i], before.variables)
            && LatestBindings(Bindings(site, c, raws, i), before.variables)
            && Perform(site, raws[i], Resolved(site, c, raws, i), before.db).reply == Some(results[i])
            && Represents(site, raws[i], BoundAt(site, c, raws, i), results[i])
  {
    var c := Start(db, queue);
    FilledFromBefore(site, c, raws, i);
    VariablesAreLatest(site, raws, db, queue, i);
    ResultIsItsOwn(site, c, raws, i);
    BindingIsRepresented(site, c, raws, i, After(site, c, raws, |raws|).results[i]);
  }

  lemma FilledFromBefore<St>(site: Site<St>, c: Context<St>, raws: seq<Raw>, i: nat)
    requires i < |raws| && c.results == []
    ensures Resolved(site, c, raws, i)
         == site.validate(raws[i], After(site, c, raws, |raws|).results[..i], After(site, c, raws, i).variables)
  {
    ResultsGrow(site, c, raws, i, |raws|);
  }

  predicate Represents<St>(site: Site<St>, raw: Raw, bound: Option<Binding>, result: Reply)
  {
    bound.Some? ==> result == ResultOf(site, raw, Some(bound.value.1))
  }

  lemma BindingIsRepresented<St>(site: Site<St>, c: Context<St>, raws: seq<Raw>, i: nat, result: Reply)
    requires i < |raws|
    requires Perform(site, raws[i], Resolved(site, c, raws, i), After(site, c, raws, i).db).reply == Some(result)
    ensures Represents(site, raws[i], BoundAt(site, c, raws, i), result)
  {
  }

  lemma ResultIsItsOwn<St>(site: Site<St>, c: Context<St>, raws: seq<Raw>, i: nat)
    requires i < |raws| && c.results == []
    ensures var results := After(site, c, raws, |raws|).results;
            Perform(site, raws[i], Resolved(site, c, raws, i), After(site, c, raws, i).db).reply == Some(results[i])
  {
    var all, next := After(site, c, raws, |raws|).results, After(site, c, raws, i + 1).results;
    ResultsGrow(site, c, raws, i + 1, |raws|);
    assert next == all[..i + 1];
    assert next[i] == all[i];
  }

  // ---- PUT and POST ----

  datatype Response = Response(status: int, results: seq<Reply>)

  class EndpointViewSet<St> {
    const site: Site<St>
    var results: seq<Reply>
    var variables: map<string, Reply>
    var db: St
    var queue: seq<Message>

    function Now(): Context<St>
      reads this
    {
      Context(results, variables, db, queue)
    }

    constructor (site: Site<St>, db: St)
      ensures this.site == site && Now() == Start(db, [])
    {
      this.site := site;
      this.results, this.variables, this.db, this.queue := [], map[], db, [];
    }

    method OperateOne(raw: Raw)
      modifies this
      ensures Now() == Operate(site, old(Now()), raw)
    {
      var p := site.validate(raw, results, variables);
      if p.None? {
        results := results + [Reply(500, site.fault(raw))];
        queue := queue + [];
        return;
      }
      var o := site.execute(p.value.operation, db);
      db := o.db;
      queue := queue + o.messages;
      if o.reply.None? {
        results := results + [Reply(500, site.fault(raw))];
        return;
      }
      if p.value.binding.Some? {
        variables := variables[p.value.binding.value := o.reply.value];
      }
      var shown := site.represent(o.reply.value);
      results := results + [if shown.Some? then shown.value else Reply(500, site.fault(raw))];
    }

    /** The lazy map of the executor: an operation is executed when its result is asked for,
        after the results of the earlier ones were appended.  Answers whether no failure
        stopped it. */
    method Put(raws: seq<Raw>, allowFail: bool) returns (finished: bool, count: nat)
      requires results == []
      modifies this
      ensures count <= |raws|
      ensures Now() == After(site, Start(old(db), old(queue)), raws, count)
      ensures finished ==> count == |raws|
      ensures finished && !allowFail ==> forall i :: 0 <= i < count ==> 100 <= results[i].status < 400
      ensures !finished ==> !allowFail && count > 0 && !(100 <= results[count - 1].status < 400)
                            && forall i :: 0 <= i < count - 1 ==> 100 <= results[i].status < 400
    {
      variables := map[];
      count := 0;
      while count < |raws|
        invariant count <= |raws|
        invariant Now() == After(site, Start(old(db), old(queue)), raws, count)
        invariant !allowFail ==> forall i :: 0 <= i < count ==> Succeeded(results[i])
      {
        OperateOne(raws[count]);
        count := count + 1;
        if !allowFail && !Succeeded(results[count - 1]) {
          return false, count;
        }
      }
      finished := true;
    }

    /** One transaction: either every operation succeeded, and everything they did is done; or
        the database is as before, no notification is left, no operation after the first
        failing one was executed, and the response lists the results up to that one. */
    method Post(raws: seq<Raw>) returns (response: Response)
      requires results == []
      modifies this
      ensures var all := After(site, Start(old(db), old(queue)), raws, |raws|);
              && (response.status == 200 <==> forall i :: 0 <= i < |raws| ==> Succeeded(all.results[i]))
              && (response.status == 200 ==> Now() == all && response.results == all.results)
              && (response.status != 200 ==>
                    && response.status == 502 && db == old(db) && queue == []
                    && 0 < |response.results| <= |raws|
                    && response.results == all.results[..|response.results|]
                    && !Succeeded(all.results[|response.results| - 1])
                    && forall i :: 0 <= i < |response.results| - 1 ==> Succeeded(all.results[i]))
      ensures response.status == 200 ==> forall i :: 0 <= i < |raws| ==> 100 <= response.results[i].status < 400
      ensures response.status != 200 ==>
                && response.results != []
                && var last := response.results[|response.results| - 1]; last.status < 100 || last.status >= 400
    {
      var saved := db;
      ghost var start := Start(db, queue);
      var finished, count := Put(raws, false);
      ResultsGrow(site, start, raws, count, |raws|);
      if finished {
        return Response(200, results);
      }
      db := saved;
      queue := [];
      response := Response(502, results);
      assert results[count - 1] == After(site, start, raws, |raws|).results[..count][count - 1];
    }
  }
}
