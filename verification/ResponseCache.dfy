/** The browser's response cache for bulk requests (sendBulkCached in
    frontend_src/vstutils/bulk.ts) over the server of HttpCache. */
module ResponseCache {
  import opened Common
  import opened EtagStore
  import opened HttpCache

  /** cache.match never finds anything for a method other than GET; the key of a stored
      response is path and query. */
  function Match<B>(cache: map<Resource, Response<B>>, req: Request): Option<Response<B>>
  {
    if req.Get? && req.resource in cache then Some(cache[req.resource]) else None
  }

  /** A request that found a stored response is sent with that response's tag. */
  function Conditional<B>(req: Request, found: Option<Response<B>>): Request
  {
    if req.Get? && found.Some? then req.(ifNoneMatch := Some(found.value.etag)) else req
  }

  /** The request without the condition that a stored response puts, or overwrites. */
  function Plain<B>(req: Request, found: Option<Response<B>>): Request
  {
    if req.Get? && found.Some? then req.(ifNoneMatch := None) else req
  }

  function Matches<B>(cache: map<Resource, Response<B>>, reqs: seq<Request>): (found: seq<Option<Response<B>>>)
    ensures |found| == |reqs|
  {
    seq(|reqs|, i requires 0 <= i < |reqs| => Match(cache, reqs[i]))
  }

  function Conditionals<B>(reqs: seq<Request>, found: seq<Option<Response<B>>>): (sent: seq<Request>)
    requires |found| == |reqs|
    ensures |sent| == |reqs|
  {
    seq(|reqs|, i requires 0 <= i < |reqs| => Conditional(reqs[i], found[i]))
  }

  function Plains<B>(reqs: seq<Request>, found: seq<Option<Response<B>>>): (sent: seq<Request>)
    requires |found| == |reqs|
    ensures |sent| == |reqs|
  {
    seq(|reqs|, i requires 0 <= i < |reqs| => Plain(reqs[i], found[i]))
  }

  /** A 304 is replaced by the stored response. */
  function Substituted<B>(response: Response<B>, found: Option<Response<B>>): Response<B>
  {
    if response.NotModified? && found.Some? then found.value else response
  }

  predicate IsStored<B>(req: Request, response: Response<B>)
  {
    req.Get? && response.Page? && response.status < 300
  }

  /** A successful page of a GET is stored under its request; the write may fail. */
  function Put<B>(cache: map<Resource, Response<B>>, req: Request, response: Response<B>, failed: bool)
    : map<Resource, Response<B>>
  {
    if IsStored(req, response) && !failed then cache[req.resource := response] else cache
  }

  function PutAll<B>(cache: map<Resource, Response<B>>, reqs: seq<Request>, responses: seq<Response<B>>,
                     failed: set<nat>)
    : map<Resource, Response<B>>
    requires |responses| == |reqs|
  {
    if reqs == [] then cache else
    var n := |reqs| - 1;
    Put(PutAll(cache, reqs[..n], responses[..n], failed), reqs[n], responses[n], n in failed)
  }

  function Responses<B>(h: Handler<B>, sv: Server, reqs: seq<Request>, others: seq<seq<Event>>): (rs: seq<Response<B>>)
    requires |reqs| == |others|
    ensures |rs| == |reqs|
  {
    seq(|reqs|, i requires 0 <= i < |reqs| => ResponseAt(h, sv, reqs, others, i))
  }

  function SubstitutedAll<B>(responses: seq<Response<B>>, found: seq<Option<Response<B>>>): (rs: seq<Response<B>>)
    requires |responses| == |found|
    ensures |rs| == |found|
  {
    seq(|found|, i requires 0 <= i < |found| => Substituted(responses[i], found[i]))
  }

  // ---- a 304 is as good as the page ----

  /** A stored page is the page the server would render now, whenever its version is current. */
  ghost predicate Fits<B>(site: Site<B>, sv: Server, r: Resource, stored: Response<B>)
  {
    && stored.Page?
    && stored.etag.version < sv.store.next
    && (Current(sv.store, SubjectOf(r)) == Some(stored.etag.version) ==>
          (stored.status, stored.body) == site(r, stored.etag.context, History(sv.log, r)))
  }

  ghost predicate CacheFits<B>(site: Site<B>, sv: Server, cache: map<Resource, Response<B>>)
  {
    forall r :: r in cache ==> Fits(site, sv, r, cache[r]) && cache[r].status < 300
  }

  lemma CacheFitsStill<B>(site: Site<B>, a: Server, b: Server, cache: map<Resource, Response<B>>)
    requires Follows(a, b) && CacheFits(site, a, cache)
    ensures CacheFits(site, b, cache)
  {
    forall r | r in cache ensures Fits(site, b, r, cache[r]) { FitsStill(site, a, b, r, cache[r]); }
  }

  lemma PutFits<B>(site: Site<B>, sv: Server, cache: map<Resource, Response<B>>, req: Request, response: Response<B>,
                   failed: bool)
    requires CacheFits(site, sv, cache)
    requires IsStored(req, response) ==> Fits(site, sv, req.resource, response)
    ensures CacheFits(site, sv, Put(cache, req, response, failed))
  {
  }

  lemma FitsStill<B>(site: Site<B>, a: Server, b: Server, r: Resource, stored: Response<B>)
    requires Follows(a, b) && Fits(site, a, r, stored)
    ensures Fits(site, b, r, stored)
  {
    assert SameSince(a, b, r);
  }

  /** A fresh page fits. */
  lemma PageFits<B>(site: Site<B>, sv: Server, req: Request)
    requires Valid(sv.store) && req.Get?
    ensures var (after, response) := Handle(site, sv, req);
            response.Page? ==> Fits(site, after, req.resource, response)
  {
    HandleIsTruthful(site, sv, req);
  }

  /** Sending the tag of a fitting page and substituting gives the very response an
      unconditional request would have got, and leaves the server in the same state. */
  lemma SubstitutionIsExact<B>(site: Site<B>, sv: Server, req: Request, found: Option<Response<B>>)
    requires Valid(sv.store)
    requires req.Get? && found.Some? ==> Fits(site, sv, req.resource, found.value)
    requires found.Some? ==> req.Get?
    ensures ExactFor(Serving(site), sv, req, found)
    ensures AskedPlainly(Serving(site), sv, req, found)
  {
    if found.Some? {
      ReadIsStable(sv.store, SubjectOf(req.resource));
    }
  }

  ghost predicate AllFit<B>(site: Site<B>, sv: Server, reqs: seq<Request>, found: seq<Option<Response<B>>>)
  {
    && |found| == |reqs|
    && forall i :: 0 <= i < |reqs| && found[i].Some? ==>
         && reqs[i].Get? && Fits(site, sv, reqs[i].resource, found[i].value)
         && found[i].value.status < 300
  }

  /** What a handler must guarantee for the cache to be invisible, for one request. */
  ghost predicate ExactFor<B>(h: Handler<B>, sv: Server, req: Request, found: Option<Response<B>>)
  {
    var conditional, plain := h(sv, Conditional(req, found)), h(sv, Plain(req, found));
    conditional.0 == plain.0 && Substituted(conditional.1, found) == plain.1
  }

  /** What the caller's own request would have got: the same state; and the plain response,
      unless a condition of the caller's own made it a 304 while a page is stored. */
  ghost predicate AskedPlainly<B>(h: Handler<B>, sv: Server, req: Request, found: Option<Response<B>>)
  {
    var asked, plain := h(sv, req), h(sv, Plain(req, found));
    && asked.0 == plain.0
    && (asked.1 == plain.1 <==> !(found.Some? && asked.1.NotModified?))
  }

  ghost predicate Exact<B(!new)>(site: Site<B>, h: Handler<B>)
  {
    forall sv: Server, req: Request, found: Option<Response<B>> ::
      Valid(sv.store) && (found.Some? ==> req.Get? && Fits(site, sv, req.resource, found.value)) ==>
        ExactFor(h, sv, req, found) && AskedPlainly(h, sv, req, found)
  }

  lemma ServingIsExact<B(!new)>(site: Site<B>)
    ensures Exact(site, Serving(site))
  {
    forall sv: Server, req: Request, found: Option<Response<B>> |
      Valid(sv.store) && (found.Some? ==> req.Get? && Fits(site, sv, req.resource, found.value))
      ensures ExactFor(Serving(site), sv, req, found) && AskedPlainly(Serving(site), sv, req, found)
    {
      SubstitutionIsExact(site, sv, req, found);
    }
  }

  /** At position k of a batch: the cache is invisible. */
  ghost predicate ExactAt<B>(h: Handler<B>, sv: Server, reqs: seq<Request>, found: seq<Option<Response<B>>>,
                             others: seq<seq<Event>>, k: nat)
    requires k < |reqs| == |others| == |found|
  {
    var reached := Reached(h, sv, Plains(reqs, found), others, k);
    ExactFor(h, reached, reqs[k], found[k]) && AskedPlainly(h, reached, reqs[k], found[k])
  }

  lemma BatchIsExactAt<B(!new)>(site: Site<B>, h: Handler<B>, sv: Server, reqs: seq<Request>,
                                found: seq<Option<Response<B>>>, others: seq<seq<Event>>, k: nat)
    requires Trustworthy(h) && Exact(site, h)
    requires Valid(sv.store) && AllFit(site, sv, reqs, found) && k < |reqs| == |others|
    ensures ExactAt(h, sv, reqs, found, others, k)
  {
    var reached := Reached(h, sv, Plains(reqs, found), others, k);
    RunReaches(h, sv, Plains(reqs, found), others, 0, k);
    if found[k].Some? { FitsStill(site, sv, reached, reqs[k].resource, found[k].value); }
  }

  /** All three ways of sending a batch, with the stored tags, without any, or as the caller made
      it, take the server through the same states. */
  lemma {:induction false} SameRuns<B>(h: Handler<B>, sv: Server, reqs: seq<Request>, found: seq<Option<Response<B>>>,
                                       others: seq<seq<Event>>, k: nat)
    requires k < |reqs| == |others| == |found|
    requires forall j :: 0 <= j < k ==> ExactAt(h, sv, reqs, found, others, j)
    ensures Reached(h, sv, Conditionals(reqs, found), others, k) == Reached(h, sv, Plains(reqs, found), others, k)
    ensures Reached(h, sv, reqs, others, k) == Reached(h, sv, Plains(reqs, found), others, k)
  {
    if k > 0 {
      SameRuns(h, sv, reqs, found, others, k - 1);
      assert ExactAt(h, sv, reqs, found, others, k - 1);
    }
  }

  /** Pages that fit may be stored, all at once. */
  lemma {:induction false} PutAllFits<B>(site: Site<B>, sv: Server, sent: seq<Request>, responses: seq<Response<B>>,
                                         cache: map<Resource, Response<B>>, failed: set<nat>)
    requires CacheFits(site, sv, cache) && |responses| == |sent|
    requires forall k :: 0 <= k < |sent| ==> PageAtFits(site, sv, sent[k], responses[k])
    ensures CacheFits(site, sv, PutAll(cache, sent, responses, failed))
    decreases |sent|
  {
    if sent != [] {
      var n := |sent| - 1;
      PutAllFits(site, sv, sent[..n], responses[..n], cache, failed);
      PutFits(site, sv, PutAll(cache, sent[..n], responses[..n], failed), sent[n], responses[n], n in failed);
    }
  }

  ghost predicate PageAtFits<B>(site: Site<B>, sv: Server, req: Request, response: Response<B>)
  {
    IsStored(req, response) ==> Fits(site, sv, req.resource, response)
  }

  ghost predicate PagesFit<B>(site: Site<B>, h: Handler<B>)
  {
    forall sv: Server, req: Request :: Valid(sv.store) && req.Get? && h(sv, req).1.Page? ==>
      Fits(site, h(sv, req).0, req.resource, h(sv, req).1)
  }

  lemma FreshFits<B>(site: Site<B>, h: Handler<B>, sv: Server, sent: seq<Request>, others: seq<seq<Event>>, k: nat)
    requires Trustworthy(h) && PagesFit(site, h)
    requires Valid(sv.store) && k < |sent| == |others| && sent[k].Get?
    requires ResponseAt(h, sv, sent, others, k).Page?
    ensures Fits(site, Before(h, sv, sent, others, |sent|), sent[k].resource, ResponseAt(h, sv, sent, others, k))
  {
    RunReaches(h, sv, sent, others, 0, k);
    RunFollows(h, sv, sent, others, 0, k + 1);
    RunFollows(h, sv, sent, others, k + 1, |sent|);
    FitsStill(site, Before(h, sv, sent, others, k + 1), Before(h, sv, sent, others, |sent|), sent[k].resource,
              ResponseAt(h, sv, sent, others, k));
  }

  // ---- transactional batches ----

  /** A status below 400; statuses are at least 100. */
  predicate Succeeds<B>(response: Response<B>)
  {
    match response
    case Page(status, _, _) => status < 400
    case PreconditionFailed(_) => false
    case _ => true
  }

  /** How many operations a POST executes: it stops after the first that fails. */
  function Executed<B>(responses: seq<Response<B>>): (n: nat)
    ensures n <= |responses|
    ensures forall k :: 0 <= k < n - 1 ==> Succeeds(responses[k])
    ensures n < |responses| ==> n > 0 && !Succeeds(responses[n - 1])
  {
    if responses == [] then 0
    else if !Succeeds(responses[0]) then 1
    else 1 + Executed(responses[1..])
  }

  predicate AllSucceed<B>(responses: seq<Response<B>>)
  {
    forall k :: 0 <= k < |responses| ==> Succeeds(responses[k])
  }

  /** What others wrote before operation k, after what was there at first. */
  function WithoutOwn(log: seq<Write>, others: seq<seq<Event>>, k: nat): seq<Write>
    requires k <= |others|
  {
    if k == 0 then log else WithoutOwn(log, others, k - 1) + WritesOf(others[k - 1])
  }

  /** The rows are as if the first n operations had not been; the versions are not. */
  function RolledBack<B>(h: Handler<B>, sv: Server, sent: seq<Request>, others: seq<seq<Event>>, n: nat): Server
    requires n <= |sent| == |others|
  {
    Server(Before(h, sv, sent, others, n).store, WithoutOwn(sv.log, others, n))
  }

  function TransactEnd<B>(h: Handler<B>, sv: Server, sent: seq<Request>, others: seq<seq<Event>>): Server
    requires |sent| == |others|
  {
    var responses := Responses(h, sv, sent, others);
    if AllSucceed(responses) then Before(h, sv, sent, others, |sent|)
    else RolledBack(h, sv, sent, others, Executed(responses))
  }

  /** The reply of a POST that failed lists the results up to the failure; it is long enough to
      be taken for an answer when the last operation is the one that failed. */
  predicate IsTaken<B>(responses: seq<Response<B>>)
  {
    AllSucceed(responses) || Executed(responses) == |responses|
  }

  /** No page that will be stored was rendered after the transaction itself had written it. */
  ghost predicate NoPhantom<B>(sent: seq<Request>, responses: seq<Response<B>>)
    requires |sent| == |responses|
  {
    forall j, k :: 0 <= j < k < |sent| && IsStored(sent[k], responses[k]) ==>
      Spares(sent[j], responses[j], sent[k].resource)
  }

  /** What an operation wrote, if it wrote. */
  function OwnWrites<B>(req: Request, response: Response<B>): seq<Write>
  {
    if req.Modify? && response.Modified? then req.writes else []
  }

  ghost predicate Spares<B>(req: Request, response: Response<B>, r: Resource)
  {
    History(OwnWrites(req, response), r) == []
  }

  /** What a handler writes is the writes of the request, when it was accepted, and nothing else. */
  ghost predicate WritesItsOwn<B>(h: Handler<B>)
  {
    forall sv: Server, req: Request :: h(sv, req).0.log == sv.log + OwnWrites(req, h(sv, req).1)
  }

  lemma ServingWritesItsOwn<B>(site: Site<B>)
    ensures WritesItsOwn(Serving(site))
  {
    forall sv: Server, req: Request
      ensures Serving(site)(sv, req).0.log == sv.log + OwnWrites(req, Serving(site)(sv, req).1)
    {
      if req.Modify? { SaveAllWrites(ReadTag(sv, req.resource, req.context).0, req.writes); }
    }
  }

  /** What a resource shows after each operation, with and without the transaction's own writes;
      and what the others and the transaction wrote at each. */
  datatype Histories = Histories(full: seq<seq<Write>>, bare: seq<seq<Write>>, theirs: seq<seq<Write>>,
                                 own: seq<seq<Write>>)
  {
    ghost predicate Consistent()
    {
      && |full| == |bare| == |theirs| + 1 == |own| + 1
      && full[0] == bare[0]
      && forall k :: 0 <= k < |own| ==> StepAt(k)
    }

    ghost predicate StepAt(k: nat)
      requires k < |own| == |theirs| && |full| == |bare| == |own| + 1
    {
      full[k + 1] == full[k] + theirs[k] + own[k] && bare[k + 1] == bare[k] + theirs[k]
    }
  }

  ghost function HistoriesOf<B>(h: Handler<B>, sv: Server, sent: seq<Request>, others: seq<seq<Event>>, r: Resource)
    : (hs: Histories)
    requires |sent| == |others|
    ensures |hs.full| == |hs.bare| == |hs.theirs| + 1 == |hs.own| + 1 == |sent| + 1
  {
    var n := |sent|;
    Histories(seq(n + 1, k requires 0 <= k <= n => History(Before(h, sv, sent, others, k).log, r)),
              seq(n + 1, k requires 0 <= k <= n => History(WithoutOwn(sv.log, others, k), r)),
              seq(n, k requires 0 <= k < n => History(WritesOf(others[k]), r)),
              seq(n, k requires 0 <= k < n => History(OwnWrites(sent[k], ResponseAt(h, sv, sent, others, k)), r)))
  }

  lemma StepIsConsistent<B>(h: Handler<B>, sv: Server, sent: seq<Request>, others: seq<seq<Event>>, k: nat, r: Resource)
    requires WritesItsOwn(h) && k < |sent| == |others|
    ensures HistoriesOf(h, sv, sent, others, r).StepAt(k)
  {
    var before, reached := Before(h, sv, sent, others, k), Reached(h, sv, sent, others, k);
    LogGrows(before, others[k]);
    HistoryOfConcat(before.log, WritesOf(others[k]), r);
    HistoryOfConcat(reached.log, OwnWrites(sent[k], ResponseAt(h, sv, sent, others, k)), r);
    HistoryOfConcat(WithoutOwn(sv.log, others, k), WritesOf(others[k]), r);
    assert Before(h, sv, sent, others, k + 1) == h(reached, sent[k]).0;
    assert WithoutOwn(sv.log, others, k + 1) == WithoutOwn(sv.log, others, k) + WritesOf(others[k]);
  }

  lemma HistoriesAreConsistent<B>(h: Handler<B>, sv: Server, sent: seq<Request>, others: seq<seq<Event>>, r: Resource)
    requires WritesItsOwn(h) && |sent| == |others|
    ensures HistoriesOf(h, sv, sent, others, r).Consistent()
  {
    forall k | 0 <= k < |sent| ensures HistoriesOf(h, sv, sent, others, r).StepAt(k) {
      StepIsConsistent(h, sv, sent, others, k, r);
    }
  }

  /** From operation i to n, what is there grows by at least what the others wrote. */
  lemma {:induction false} OthersGrow(hs: Histories, i: nat, n: nat)
    requires hs.Consistent() && i <= n < |hs.full|
    ensures hs.bare[i] <= hs.bare[n]
    ensures |hs.bare[n]| + |hs.full[i]| <= |hs.full[n]| + |hs.bare[i]|
  {
    if i < n {
      OthersGrow(hs, i, n - 1);
      assert hs.StepAt(n - 1);
    }
  }

  lemma {:induction false} SameWithoutOwn(hs: Histories, k: nat)
    requires hs.Consistent() && k < |hs.full| && forall j :: 0 <= j < k ==> hs.own[j] == []
    ensures hs.full[k] == hs.bare[k]
  {
    if k > 0 {
      SameWithoutOwn(hs, k - 1);
      assert hs.StepAt(k - 1);
    }
  }

  /** Nothing shown by operation i was the transaction's own, and nothing came after: then the
      rollback takes nothing away. */
  lemma NothingTaken(hs: Histories, i: nat, n: nat)
    requires hs.Consistent() && i <= n < |hs.full| && hs.full[n] == hs.full[i]
    requires forall j :: 0 <= j < i ==> hs.own[j] == []
    ensures hs.bare[n] == hs.full[n]
  {
    SameWithoutOwn(hs, i);
    OthersGrow(hs, i, n);
  }

  /** A page that fits after operation i, when the transaction had not yet touched it, fits after
      the rollback. */
  lemma FitsAfterRollback<B>(site: Site<B>, h: Handler<B>, sv: Server, sent: seq<Request>, others: seq<seq<Event>>,
                             i: nat, n: nat, r: Resource, stored: Response<B>)
    requires WritesItsOwn(h) && i <= n <= |sent| == |others|
    requires Fits(site, Before(h, sv, sent, others, i), r, stored)
    requires Follows(Before(h, sv, sent, others, i), Before(h, sv, sent, others, n))
    requires forall j :: 0 <= j < i ==> Spares(sent[j], ResponseAt(h, sv, sent, others, j), r)
    ensures Fits(site, RolledBack(h, sv, sent, others, n), r, stored)
  {
    var hs := HistoriesOf(h, sv, sent, others, r);
    HistoriesAreConsistent(h, sv, sent, others, r);
    forall j | 0 <= j < i ensures hs.own[j] == [] {
      assert Spares(sent[j], ResponseAt(h, sv, sent, others, j), r);
    }
    RollbackFits(site, Before(h, sv, sent, others, i), Before(h, sv, sent, others, n), WithoutOwn(sv.log, others, n),
                 r, stored, hs, i, n);
  }

  lemma RollbackFits<B>(site: Site<B>, begun: Server, end: Server, bare: seq<Write>, r: Resource, stored: Response<B>,
                        hs: Histories, i: nat, n: nat)
    requires Fits(site, begun, r, stored) && Follows(begun, end)
    requires hs.Consistent() && i <= n < |hs.full| && forall j :: 0 <= j < i ==> hs.own[j] == []
    requires hs.full[i] == History(begun.log, r) && hs.full[n] == History(end.log, r) && hs.bare[n] == History(bare, r)
    ensures Fits(site, Server(end.store, bare), r, stored)
  {
    assert SameSince(begun, end, r);
    if hs.full[n] == hs.full[i] { NothingTaken(hs, i, n); }
  }

  lemma OldFitsAfterRollback<B>(site: Site<B>, h: Handler<B>, sv: Server, sent: seq<Request>, others: seq<seq<Event>>,
                                n: nat, r: Resource, stored: Response<B>)
    requires Trustworthy(h) && WritesItsOwn(h)
    requires n <= |sent| == |others| && Valid(sv.store) && Fits(site, sv, r, stored)
    ensures Fits(site, RolledBack(h, sv, sent, others, n), r, stored)
  {
    RunFollows(h, sv, sent, others, 0, n);
    FitsAfterRollback(site, h, sv, sent, others, 0, n, r, stored);
  }

  /** A page that came fits when its operation is done. */
  lemma FitsWhenDone<B>(site: Site<B>, h: Handler<B>, sv: Server, sent: seq<Request>, others: seq<seq<Event>>, k: nat)
    requires Trustworthy(h) && PagesFit(site, h)
    requires k < |sent| == |others| && Valid(sv.store) && sent[k].Get? && ResponseAt(h, sv, sent, others, k).Page?
    ensures Fits(site, Before(h, sv, sent, others, k + 1), sent[k].resource, ResponseAt(h, sv, sent, others, k))
    ensures Follows(Before(h, sv, sent, others, k + 1), Before(h, sv, sent, others, |sent|))
  {
    RunReaches(h, sv, sent, others, 0, k);
    RunFollows(h, sv, sent, others, 0, k + 1);
    RunFollows(h, sv, sent, others, k + 1, |sent|);
  }

  lemma SparedSoFar<B>(sent: seq<Request>, responses: seq<Response<B>>, k: nat)
    requires |sent| == |responses| && k < |sent| && NoPhantom(sent, responses) && IsStored(sent[k], responses[k])
    ensures forall j :: 0 <= j < k + 1 ==> Spares(sent[j], responses[j], sent[k].resource)
  {
  }

  lemma NewFitsAfterRollback<B>(site: Site<B>, h: Handler<B>, sv: Server, sent: seq<Request>, others: seq<seq<Event>>,
                                k: nat)
    requires Trustworthy(h) && PagesFit(site, h) && WritesItsOwn(h)
    requires k < |sent| == |others| && Valid(sv.store)
    requires NoPhantom(sent, Responses(h, sv, sent, others))
    requires IsStored(sent[k], Responses(h, sv, sent, others)[k])
    ensures Fits(site, RolledBack(h, sv, sent, others, |sent|), sent[k].resource, Responses(h, sv, sent, others)[k])
  {
    var responses := Responses(h, sv, sent, others);
    FitsWhenDone(site, h, sv, sent, others, k);
    SparedSoFar(sent, responses, k);
    assert forall j :: 0 <= j < |sent| ==> responses[j] == ResponseAt(h, sv, sent, others, j);
    FitsAfterRollback(site, h, sv, sent, others, k + 1, |sent|, sent[k].resource, responses[k]);
  }

  /** A page with status 400 or more, or a failed condition, undoes the whole batch: the rows are as
      they were.  With none of them the batch stays done. */
  lemma FailingStatusUndoes<B>(h: Handler<B>, sv: Server, sent: seq<Request>, others: seq<seq<Event>>)
    requires |sent| == |others| && forall k :: 0 <= k < |others| ==> others[k] == []
    ensures (exists k :: 0 <= k < |sent| && var response := ResponseAt(h, sv, sent, others, k);
                         response.PreconditionFailed? || (response.Page? && response.status >= 400)) ==>
              TransactEnd(h, sv, sent, others).log == sv.log
    ensures (forall k :: 0 <= k < |sent| ==> var response := ResponseAt(h, sv, sent, others, k);
                         response.Modified? || response.NotModified? || (response.Page? && response.status < 400)) ==>
              TransactEnd(h, sv, sent, others) == Before(h, sv, sent, others, |sent|)
  {
    var responses := Responses(h, sv, sent, others);
    NobodyWrote(sv.log, others, Executed(responses));
    if k :| 0 <= k < |sent| && var response := ResponseAt(h, sv, sent, others, k);
                               response.PreconditionFailed? || (response.Page? && response.status >= 400) {
      assert !Succeeds(responses[k]);
    }
  }

  lemma {:induction false} NobodyWrote(log: seq<Write>, others: seq<seq<Event>>, n: nat)
    requires n <= |others| && forall k :: 0 <= k < |others| ==> others[k] == []
    ensures WithoutOwn(log, others, n) == log
  {
    if n > 0 { NobodyWrote(log, others, n - 1); }
  }

  // ---- every run ----

  /** A batch that has looked into the cache and waits for the server. */
  datatype Flight<B> = Flight(client: nat, requests: seq<Request>, found: seq<Option<Response<B>>>)

  datatype World<B> = World(server: Server, caches: map<nat, map<Resource, Response<B>>>, flights: map<nat, Flight<B>>)

  /** Start and Finish are the two halves of sendBulkCached; in between anything may happen,
      also to the cache, and the server's work on a batch is interleaved with others'.  Fail is
      a batch that the server worked through but whose responses were lost or too few; Refuse one
      that the server did not work on, because it was lost on its way or refused.  Transact is a
      transactional batch; its reply may be lost. */
  datatype Step =
    | Start(id: nat, client: nat, requests: seq<Request>)
    | Finish(id: nat, others: seq<seq<Event>>, failed: set<nat>)
    | Fail(id: nat, others: seq<seq<Event>>)
    | Refuse(id: nat)
    | Transact(id: nat, others: seq<seq<Event>>, failed: set<nat>, lost: bool)
    | Other(e: Event)
    | Forget(client: nat, resource: Resource)

  function CacheOf<B>(w: World<B>, client: nat): map<Resource, Response<B>>
  {
    if client in w.caches then w.caches[client] else map[]
  }

  predicate Awaits<B>(w: World<B>, id: nat, others: seq<seq<Event>>)
  {
    id in w.flights && |w.flights[id].requests| == |others| == |w.flights[id].found|
  }

  predicate Enabled<B>(w: World<B>, step: Step)
  {
    match step
    case Start(id, _, _) => id !in w.flights
    case Finish(id, others, _) => Awaits(w, id, others)
    case Fail(id, others) => Awaits(w, id, others)
    case Transact(id, others, _, _) => Awaits(w, id, others)
    case _ => true
  }

  function Next<B>(site: Site<B>, w: World<B>, step: Step): World<B>
  {
    if !Enabled(w, step) then w else
    match step
    case Start(id, client, requests) =>
      w.(flights := w.flights[id := Flight(client, requests, Matches(CacheOf(w, client), requests))])
    case Finish(id, others, failed) =>
      var f := w.flights[id];
      var sent := Conditionals(f.requests, f.found);
      var responses := Responses(Serving(site), w.server, sent, others);
      World(Before(Serving(site), w.server, sent, others, |sent|),
            w.caches[f.client := PutAll(CacheOf(w, f.client), sent, responses, failed)],
            w.flights - {id})
    case Fail(id, others) =>
      var sent := Conditionals(w.flights[id].requests, w.flights[id].found);
      w.(server := Before(Serving(site), w.server, sent, others, |sent|), flights := w.flights - {id})
    case Refuse(id) => w.(flights := w.flights - {id})
    case Transact(id, others, failed, lost) =>
      var f := w.flights[id];
      var sent := Conditionals(f.requests, f.found);
      var responses := Responses(Serving(site), w.server, sent, others);
      World(TransactEnd(Serving(site), w.server, sent, others),
            if !lost && IsTaken(responses)
            then w.caches[f.client := PutAll(CacheOf(w, f.client), sent, responses, failed)] else w.caches,
            w.flights - {id})
    case Other(e) => w.(server := Happen(w.server, e))
    case Forget(client, resource) => w.(caches := w.caches[client := CacheOf(w, client) - {resource}])
  }

  function At<B>(site: Site<B>, w: World<B>, steps: seq<Step>, i: nat): World<B>
    requires i <= |steps|
  {
    if i == 0 then w else Next(site, At(site, w, steps, i - 1), steps[i - 1])
  }

  /** What the server answers to the requests as they are sent. */
  function SentResponses<B>(site: Site<B>, w: World<B>, id: nat, others: seq<seq<Event>>): seq<Response<B>>
    requires Awaits(w, id, others)
  {
    Responses(Serving(site), w.server, Conditionals(w.flights[id].requests, w.flights[id].found), others)
  }

  /** What sendBulkCached returns when the batch finishes. */
  function Delivered<B>(site: Site<B>, w: World<B>, id: nat, others: seq<seq<Event>>): seq<Response<B>>
    requires Awaits(w, id, others)
  {
    var f := w.flights[id];
    SubstitutedAll(Responses(Serving(site), w.server, Conditionals(f.requests, f.found), others), f.found)
  }

  /** What the requests would have got at that moment without any condition on those that found
      something stored. */
  function Unconditional<B>(site: Site<B>, w: World<B>, id: nat, others: seq<seq<Event>>): seq<Response<B>>
    requires Awaits(w, id, others)
  {
    var f := w.flights[id];
    Responses(Serving(site), w.server, Plains(f.requests, f.found), others)
  }

  /** What sendBulkNotCached would have returned at that moment. */
  function Uncached<B>(site: Site<B>, w: World<B>, id: nat, others: seq<seq<Event>>): seq<Response<B>>
    requires Awaits(w, id, others)
  {
    Responses(Serving(site), w.server, w.flights[id].requests, others)
  }

  ghost predicate Good<B>(site: Site<B>, w: World<B>)
  {
    && Valid(w.server.store)
    && (forall c :: c in w.caches ==> CacheFits(site, w.server, w.caches[c]))
    && (forall id :: id in w.flights ==> AllFit(site, w.server, w.flights[id].requests, w.flights[id].found))
  }

  lemma GoodStill<B>(site: Site<B>, w: World<B>, sv: Server)
    requires Good(site, w) && Follows(w.server, sv)
    ensures Good(site, w.(server := sv))
  {
    forall c | c in w.caches ensures CacheFits(site, sv, w.caches[c]) {
      CacheFitsStill(site, w.server, sv, w.caches[c]);
    }
    forall id | id in w.flights ensures AllFit(site, sv, w.flights[id].requests, w.flights[id].found) {
      var f := w.flights[id];
      forall i | 0 <= i < |f.requests| && f.found[i].Some?
        ensures Fits(site, sv, f.requests[i].resource, f.found[i].value)
      {
        FitsStill(site, w.server, sv, f.requests[i].resource, f.found[i].value);
      }
    }
  }

  /** A transactional batch that leaves no phantom: it was committed, or its reply is not taken
      for an answer, or no stored page was rendered after the transaction's own write to it. */
  ghost predicate IsHarmless<B>(site: Site<B>, w: World<B>, step: Step)
  {
    step.Transact? && Awaits(w, step.id, step.others) && !step.lost ==>
      var f := w.flights[step.id];
      var sent := Conditionals(f.requests, f.found);
      var responses := Responses(Serving(site), w.server, sent, step.others);
      AllSucceed(responses) || !IsTaken(responses) || NoPhantom(sent, responses)
  }

  lemma GoodStep<B>(site: Site<B>, w: World<B>, step: Step)
    requires Good(site, w) && IsHarmless(site, w, step)
    ensures Good(site, Next(site, w, step))
  {
    if Enabled(w, step) {
      match step {
        case Other(e) => GoodOther(site, w, e);
        case Finish(id, others, failed) => GoodFinish(site, w, id, others, failed);
        case Fail(id, others) => GoodFail(site, w, id, others);
        case Transact(id, others, failed, lost) =>
          if AllSucceed(SentResponses(site, w, id, others)) {
            GoodCommit(site, w, id, others, failed, lost);
          } else {
            GoodRollback(site, w, id, others, failed, lost);
          }
        case _ => GoodLocal(site, w, step);
      }
    }
  }

  /** What becomes of the server and the caches when a batch fails or is refused, and when an entry
      of a cache is dropped or cannot be written. */
  lemma WhatStepsLeave<B>(site: Site<B>, w: World<B>, id: nat, others: seq<seq<Event>>, client: nat, r: Resource)
    requires Awaits(w, id, others)
    ensures var failed, refused := Next(site, w, Fail(id, others)), Next(site, w, Refuse(id));
            && failed.server == Next(site, w, Finish(id, others, {})).server && failed.caches == w.caches
            && refused.server == w.server && refused.caches == w.caches
            && id !in failed.flights && id !in refused.flights
    ensures var kept := Next(site, w, Forget(client, r));
            && kept.server == w.server && kept.flights == w.flights
            && r !in CacheOf(kept, client)
            && (forall q :: q != r && q in CacheOf(w, client) ==> q in CacheOf(kept, client))
    ensures forall req: Request, response: Response<B> ::
              Put(CacheOf(w, client), req, response, true) == CacheOf(w, client)
  {
  }

  lemma GoodLocal<B>(site: Site<B>, w: World<B>, step: Step)
    requires Good(site, w) && (step.Start? || step.Refuse? || step.Forget?)
    ensures Good(site, Next(site, w, step))
  {
  }

  lemma GoodOther<B>(site: Site<B>, w: World<B>, e: Event)
    requires Good(site, w)
    ensures Good(site, Next(site, w, Other(e)))
  {
    assert HappenAll(w.server, [e]) == Happen(w.server, e) by { assert [e][..0] == []; }
    HappenAllFollows(w.server, [e]);
    GoodStill(site, w, Happen(w.server, e));
  }

  lemma GoodCommit<B>(site: Site<B>, w: World<B>, id: nat, others: seq<seq<Event>>, failed: set<nat>, lost: bool)
    requires Good(site, w) && Awaits(w, id, others) && AllSucceed(SentResponses(site, w, id, others))
    ensures Good(site, Next(site, w, Transact(id, others, failed, lost)))
  {
    GoodFinish(site, w, id, others, failed);
    GoodFail(site, w, id, others);
    assert Next(site, w, Transact(id, others, failed, lost)) ==
             if lost then Next(site, w, Fail(id, others)) else Next(site, w, Finish(id, others, failed));
  }

  lemma GoodRollback<B>(site: Site<B>, w: World<B>, id: nat, others: seq<seq<Event>>, failed: set<nat>, lost: bool)
    requires Good(site, w) && Awaits(w, id, others) && !AllSucceed(SentResponses(site, w, id, others))
    requires IsHarmless(site, w, Transact(id, others, failed, lost))
    ensures Good(site, Next(site, w, Transact(id, others, failed, lost)))
  {
    var f, h, responses := w.flights[id], Serving(site), SentResponses(site, w, id, others);
    var sent := Conditionals(f.requests, f.found);
    ServingIsTrustworthy(site);
    ServingPagesFit(site);
    ServingWritesItsOwn(site);
    GoodAfterRollback(site, h, w, sent, others, Executed(responses));
    if !lost && IsTaken(responses) {
      StoreFitsAfterRollback(site, h, w.server, sent, others, CacheOf(w, f.client), failed);
    }
  }

  lemma GoodAfterRollback<B>(site: Site<B>, h: Handler<B>, w: World<B>, sent: seq<Request>, others: seq<seq<Event>>,
                             n: nat)
    requires Trustworthy(h) && WritesItsOwn(h) && Good(site, w) && n <= |sent| == |others|
    ensures Good(site, w.(server := RolledBack(h, w.server, sent, others, n)))
  {
    var sv := RolledBack(h, w.server, sent, others, n);
    RunFollows(h, w.server, sent, others, 0, n);
    forall c | c in w.caches ensures CacheFits(site, sv, w.caches[c]) {
      CacheFitsAfterRollback(site, h, w.server, sent, others, n, w.caches[c]);
    }
    forall id | id in w.flights ensures AllFit(site, sv, w.flights[id].requests, w.flights[id].found) {
      var f := w.flights[id];
      forall i | 0 <= i < |f.requests| && f.found[i].Some?
        ensures Fits(site, sv, f.requests[i].resource, f.found[i].value)
      {
        OldFitsAfterRollback(site, h, w.server, sent, others, n, f.requests[i].resource, f.found[i].value);
      }
    }
  }

  lemma CacheFitsAfterRollback<B>(site: Site<B>, h: Handler<B>, sv: Server, sent: seq<Request>, others: seq<seq<Event>>,
                                  n: nat, cache: map<Resource, Response<B>>)
    requires Trustworthy(h) && WritesItsOwn(h) && Valid(sv.store) && CacheFits(site, sv, cache)
    requires n <= |sent| == |others|
    ensures CacheFits(site, RolledBack(h, sv, sent, others, n), cache)
  {
    forall r | r in cache ensures Fits(site, RolledBack(h, sv, sent, others, n), r, cache[r]) {
      OldFitsAfterRollback(site, h, sv, sent, others, n, r, cache[r]);
    }
  }

  lemma StoreFitsAfterRollback<B>(site: Site<B>, h: Handler<B>, sv: Server, sent: seq<Request>, others: seq<seq<Event>>,
                                  cache: map<Resource, Response<B>>, failed: set<nat>)
    requires Trustworthy(h) && PagesFit(site, h) && WritesItsOwn(h) && Valid(sv.store) && |sent| == |others|
    requires CacheFits(site, sv, cache) && NoPhantom(sent, Responses(h, sv, sent, others))
    ensures CacheFits(site, RolledBack(h, sv, sent, others, |sent|),
                      PutAll(cache, sent, Responses(h, sv, sent, others), failed))
  {
    var end, responses := RolledBack(h, sv, sent, others, |sent|), Responses(h, sv, sent, others);
    CacheFitsAfterRollback(site, h, sv, sent, others, |sent|, cache);
    forall k | 0 <= k < |sent| ensures PageAtFits(site, end, sent[k], responses[k]) {
      if IsStored(sent[k], responses[k]) { NewFitsAfterRollback(site, h, sv, sent, others, k); }
    }
    PutAllFits(site, end, sent, responses, cache, failed);
  }

  lemma GoodFail<B>(site: Site<B>, w: World<B>, id: nat, others: seq<seq<Event>>)
    requires Good(site, w) && Awaits(w, id, others)
    ensures Good(site, Next(site, w, Fail(id, others)))
  {
    var f, h := w.flights[id], Serving(site);
    var sent := Conditionals(f.requests, f.found);
    ServingIsTrustworthy(site);
    RunFollows(h, w.server, sent, others, 0, |sent|);
    GoodStill(site, w, Before(h, w.server, sent, others, |sent|));
  }

  lemma GoodFinish<B>(site: Site<B>, w: World<B>, id: nat, others: seq<seq<Event>>, failed: set<nat>)
    requires Good(site, w) && Enabled(w, Finish(id, others, failed))
    ensures Good(site, Next(site, w, Finish(id, others, failed)))
  {
    var f, h := w.flights[id], Serving(site);
    var sent := Conditionals(f.requests, f.found);
    var end := Before(h, w.server, sent, others, |sent|);
    ServingIsTrustworthy(site);
    ServingPagesFit(site);
    RunFollows(h, w.server, sent, others, 0, |sent|);
    GoodStill(site, w, end);
    StoreFits(site, h, w.server, sent, others, CacheOf(w, f.client), failed);
  }

  /** What a batch brought back may be stored. */
  lemma StoreFits<B>(site: Site<B>, h: Handler<B>, sv: Server, sent: seq<Request>, others: seq<seq<Event>>,
                     cache: map<Resource, Response<B>>, failed: set<nat>)
    requires Trustworthy(h) && PagesFit(site, h) && Valid(sv.store) && |sent| == |others|
    requires CacheFits(site, sv, cache)
    ensures CacheFits(site, Before(h, sv, sent, others, |sent|),
                      PutAll(cache, sent, Responses(h, sv, sent, others), failed))
  {
    var end, responses := Before(h, sv, sent, others, |sent|), Responses(h, sv, sent, others);
    RunFollows(h, sv, sent, others, 0, |sent|);
    CacheFitsStill(site, sv, end, cache);
    forall k | 0 <= k < |sent| ensures PageAtFits(site, end, sent[k], responses[k]) {
      if responses[k].Page? && sent[k].Get? { FreshFits(site, h, sv, sent, others, k); }
    }
    PutAllFits(site, end, sent, responses, cache, failed);
  }

  lemma ServingPagesFit<B>(site: Site<B>)
    ensures PagesFit(site, Serving(site))
  {
    forall sv: Server, req: Request | Valid(sv.store) && req.Get? && Serving(site)(sv, req).1.Page?
      ensures Fits(site, Serving(site)(sv, req).0, req.resource, Serving(site)(sv, req).1)
    {
      PageFits(site, sv, req);
    }
  }

  /** A finishing batch returns what it would have got unconditionally; and at each position
      what sending it without the cache would have got, unless the caller set a condition of
      its own that is a 304 while a page is stored: the page is returned instead. */
  ghost predicate IsTransparent<B>(site: Site<B>, w: World<B>, id: nat, others: seq<seq<Event>>)
    requires Awaits(w, id, others)
  {
    var f, delivered, uncached := w.flights[id], Delivered(site, w, id, others), Uncached(site, w, id, others);
    && delivered == Unconditional(site, w, id, others)
    && forall k :: 0 <= k < |f.requests| ==>
         (delivered[k] == uncached[k] <==> !(f.found[k].Some? && uncached[k].NotModified?))
  }

  lemma GoodIsTransparent<B(!new)>(site: Site<B>, w: World<B>, id: nat, others: seq<seq<Event>>)
    requires Good(site, w) && Awaits(w, id, others)
    ensures IsTransparent(site, w, id, others)
  {
    var f := w.flights[id];
    forall k | 0 <= k < |f.requests| ensures ExactAt(Serving(site), w.server, f.requests, f.found, others, k) {
      ServingIsTrustworthy(site);
      ServingIsExact(site);
      BatchIsExactAt(site, Serving(site), w.server, f.requests, f.found, others, k);
    }
    forall k | 0 <= k < |f.requests|
      ensures Delivered(site, w, id, others)[k] == Unconditional(site, w, id, others)[k]
      ensures Delivered(site, w, id, others)[k] == Uncached(site, w, id, others)[k] <==>
                !(f.found[k].Some? && Uncached(site, w, id, others)[k].NotModified?)
    {
      assert ExactAt(Serving(site), w.server, f.requests, f.found, others, k);
      SameRuns(Serving(site), w.server, f.requests, f.found, others, k);
    }
  }

  /** A transactional batch executes as many operations as it would without any stored tags, and
      returns for them what they would have got. */
  ghost predicate IsTransparentToo<B>(site: Site<B>, w: World<B>, id: nat, others: seq<seq<Event>>)
    requires Awaits(w, id, others)
  {
    && Delivered(site, w, id, others) == Unconditional(site, w, id, others)
    && Executed(SentResponses(site, w, id, others)) == Executed(Unconditional(site, w, id, others))
    && (AllSucceed(SentResponses(site, w, id, others)) <==> AllSucceed(Unconditional(site, w, id, others)))
  }

  lemma SubstitutingKeepsSuccess<B>(responses: seq<Response<B>>, found: seq<Option<Response<B>>>)
    requires |responses| == |found|
    requires forall k :: 0 <= k < |found| && found[k].Some? ==> found[k].value.Page? && found[k].value.status < 300
    ensures forall k :: 0 <= k < |found| ==> (Succeeds(SubstitutedAll(responses, found)[k]) <==> Succeeds(responses[k]))
  {
  }

  lemma {:induction false} SameSuccess<B>(a: seq<Response<B>>, b: seq<Response<B>>)
    requires |a| == |b| && forall k :: 0 <= k < |a| ==> (Succeeds(a[k]) <==> Succeeds(b[k]))
    ensures Executed(a) == Executed(b) && (AllSucceed(a) <==> AllSucceed(b))
    decreases |a|
  {
    if a != [] {
      forall k | 0 <= k < |a[1..]| ensures Succeeds(a[1..][k]) <==> Succeeds(b[1..][k]) {
        assert a[1..][k] == a[k + 1] && b[1..][k] == b[k + 1];
      }
      SameSuccess(a[1..], b[1..]);
    }
  }

  lemma SubstitutingExecutesAsMany<B>(responses: seq<Response<B>>, found: seq<Option<Response<B>>>)
    requires |responses| == |found|
    requires forall k :: 0 <= k < |found| && found[k].Some? ==> found[k].value.Page? && found[k].value.status < 300
    ensures Executed(SubstitutedAll(responses, found)) == Executed(responses)
    ensures AllSucceed(SubstitutedAll(responses, found)) <==> AllSucceed(responses)
  {
    SubstitutingKeepsSuccess(responses, found);
    SameSuccess(responses, SubstitutedAll(responses, found));
  }

  ghost predicate AllHarmless<B>(site: Site<B>, w: World<B>, steps: seq<Step>)
  {
    forall i :: 0 <= i < |steps| ==> IsHarmless(site, At(site, w, steps, i), steps[i])
  }

  lemma {:induction false} EveryRunIsGood<B>(site: Site<B>, w: World<B>, steps: seq<Step>, i: nat)
    requires Good(site, w) && AllHarmless(site, w, steps) && i <= |steps|
    ensures Good(site, At(site, w, steps, i))
  {
    if i > 0 {
      EveryRunIsGood(site, w, steps, i - 1);
      assert IsHarmless(site, At(site, w, steps, i - 1), steps[i - 1]);
      GoodStep(site, At(site, w, steps, i - 1), steps[i - 1]);
    }
  }

  /** In every run of any number of browsers, batches in flight, transactional or not, failures,
      refusals, writes, reads and lost entries, in which no rolled back batch left a phantom, the
      cache is invisible: a batch that finishes returns at each position the very response
      (status, data and tag) that sending it without the cache would have returned at that
      moment, but for conditions of the caller's own. */
  lemma CachedEqualsUncached<B(!new)>(site: Site<B>, w: World<B>, steps: seq<Step>, i: nat)
    requires Good(site, w) && AllHarmless(site, w, steps) && i < |steps|
    ensures steps[i].Finish? && Awaits(At(site, w, steps, i), steps[i].id, steps[i].others) ==>
              IsTransparent(site, At(site, w, steps, i), steps[i].id, steps[i].others)
    ensures steps[i].Transact? && Awaits(At(site, w, steps, i), steps[i].id, steps[i].others) ==>
              IsTransparentToo(site, At(site, w, steps, i), steps[i].id, steps[i].others)
  {
    EveryRunIsGood(site, w, steps, i);
    if (steps[i].Finish? || steps[i].Transact?) && Awaits(At(site, w, steps, i), steps[i].id, steps[i].others) {
      var now, id, others := At(site, w, steps, i), steps[i].id, steps[i].others;
      GoodIsTransparent(site, now, id, others);
      SubstitutingExecutesAsMany(SentResponses(site, now, id, others), now.flights[id].found);
    }
  }

  /** A request object that was sent conditionally keeps its tag.  Sent again when nothing is
      stored for it any more, it gets a bare 304, with no page, if and only if the tag is still
      current. */
  lemma ResentIsBareIff<B>(site: Site<B>, sv: Server, req: Request, stored: Response<B>)
    requires Valid(sv.store) && req.Get? && stored.etag.version < sv.store.next && stored.etag.context == req.context
    ensures var resent := Conditional(req, Some(stored));
            && Conditional<B>(resent, None) == resent
            && (Substituted(Handle(site, sv, resent).1, None).NotModified? <==>
                  Current(sv.store, SubjectOf(req.resource)) == Some(stored.etag.version))
  {
    ReadIsStable(sv.store, SubjectOf(req.resource));
  }

  /** A GET without a condition of its own is answered with a page: then nothing is excepted. */
  lemma PlainGetsArePages<B>(site: Site<B>, sv: Server, req: Request)
    requires req.Get? && req.ifNoneMatch.None?
    ensures Handle(site, sv, req).1.Page?
  {
  }

  // ---- a rolled back batch that leaves a phantom ----

  /** Row 1 is changed, read back, and changed again with a stale tag. */
  function PhantomBatch(w: Write): seq<Request>
  {
    [Modify(ROW, "en", None, [w]), Get(ROW, "en", None), Modify(ROW, "en", Some(ETag(0, "other")), [])]
  }

  const ROW := Resource(Some(1), "")

  const NOBODY: seq<seq<Event>> := [[], [], []]

  lemma ThreeOperations<B>(h: Handler<B>, sv: Server, sent: seq<Request>)
    requires |sent| == 3
    ensures var s1 := h(sv, sent[0]).0;
            var s2 := h(s1, sent[1]).0;
            && Responses(h, sv, sent, NOBODY) == [h(sv, sent[0]).1, h(s1, sent[1]).1, h(s2, sent[2]).1]
            && Before(h, sv, sent, NOBODY, 3) == h(s2, sent[2]).0
  {
    assert Reached(h, sv, sent, NOBODY, 0) == sv;
    assert Reached(h, sv, sent, NOBODY, 1) == h(sv, sent[0]).0;
    assert Reached(h, sv, sent, NOBODY, 2) == h(h(sv, sent[0]).0, sent[1]).0;
  }

  lemma PhantomWritten<B>(site: Site<B>, sv: Server, w: Write)
    requires Valid(sv.store)
    ensures var (s1, response) := Handle(site, sv, Modify(ROW, "en", None, [w]));
            Valid(s1.store) && s1.log == sv.log + [w] && response.Modified?
  {
    HandleFollows(site, sv, Modify(ROW, "en", None, [w]));
    SaveAllWrites(ReadTag(sv, ROW, "en").0, [w]);
  }

  lemma PhantomRead<B>(site: Site<B>, s1: Server)
    requires Valid(s1.store)
    ensures var (s2, response) := Handle(site, s1, Get(ROW, "en", None));
            && Valid(s2.store) && response.Page? && response.etag.context == "en"
            && (response.status, response.body) == site(ROW, "en", History(s1.log, ROW))
            && response.etag.version < s2.store.next
            && Current(s2.store, Row(1)) == Some(response.etag.version)
  {
    HandleFollows(site, s1, Get(ROW, "en", None));
    HandleIsTruthful(site, s1, Get(ROW, "en", None));
  }

  /** Refusing leaves what is current current. */
  lemma PhantomRefused<B>(site: Site<B>, s2: Server, version: Uuid)
    requires Valid(s2.store) && Current(s2.store, Row(1)) == Some(version) && version < s2.store.next
    ensures var (s3, response) := Handle(site, s2, Modify(ROW, "en", Some(ETag(0, "other")), []));
            && Valid(s3.store) && response.PreconditionFailed?
            && Current(s3.store, Row(1)) == Some(version) && version < s3.store.next
  {
    HandleFollows(site, s2, Modify(ROW, "en", Some(ETag(0, "other")), []));
    ReadIsStable(s2.store, Row(1));
    ReadIsStable(ReadTag(s2, ROW, "en").0.store, Row(1));
  }

  lemma PhantomResponses<B>(site: Site<B>, sv: Server, w: Write)
    requires Valid(sv.store)
    ensures var responses := Responses(Serving(site), sv, PhantomBatch(w), NOBODY);
            var end := Before(Serving(site), sv, PhantomBatch(w), NOBODY, 3);
            && responses[0].Modified? && responses[1].Page? && responses[2].PreconditionFailed?
            && (responses[1].status, responses[1].body) == site(ROW, "en", History(sv.log + [w], ROW))
            && responses[1].etag.context == "en"
            && Valid(end.store) && responses[1].etag.version < end.store.next
            && Current(end.store, Row(1)) == Some(responses[1].etag.version)
  {
    var sent := PhantomBatch(w);
    ThreeOperations(Serving(site), sv, sent);
    PhantomWritten(site, sv, w);
    var s1 := Handle(site, sv, sent[0]).0;
    PhantomRead(site, s1);
    var (s2, page) := Handle(site, s1, sent[1]);
    PhantomRefused(site, s2, page.etag.version);
  }

  /** The batch is rolled back, but its reply is as long as the batch, and the page is stored. */
  lemma PhantomIsStored<B>(site: Site<B>, sv: Server, w: Write, cache: map<Resource, Response<B>>)
    requires Valid(sv.store)
    requires site(ROW, "en", History(sv.log + [w], ROW)).0 < 300
    ensures var responses := Responses(Serving(site), sv, PhantomBatch(w), NOBODY);
            var after := PutAll(cache, PhantomBatch(w), responses, {});
            var end := Before(Serving(site), sv, PhantomBatch(w), NOBODY, 3).store;
            && Valid(end) && ROW in after
            && var page := after[ROW];
               && page.Page? && (page.status, page.body) == site(ROW, "en", History(sv.log + [w], ROW))
               && page.etag.context == "en" && page.etag.version < end.next
               && Current(end, Row(1)) == Some(page.etag.version)
  {
    PhantomResponses(site, sv, w);
    StoredAtOne(cache, PhantomBatch(w), Responses(Serving(site), sv, PhantomBatch(w), NOBODY));
  }

  lemma PhantomFails<B>(site: Site<B>, sv: Server, w: Write)
    requires Valid(sv.store)
    requires site(ROW, "en", History(sv.log + [w], ROW)).0 < 300
    ensures var responses := Responses(Serving(site), sv, PhantomBatch(w), NOBODY);
            !AllSucceed(responses) && Executed(responses) == 3
  {
    PhantomResponses(site, sv, w);
    LastFails(Responses(Serving(site), sv, PhantomBatch(w), NOBODY));
  }

  lemma PhantomWorld<B>(site: Site<B>, world: World<B>, w: Write, client: nat)
    requires Valid(world.server.store) && 0 in world.flights
    requires world.flights[0] == Flight(client, PhantomBatch(w), [None, None, None])
    requires site(ROW, "en", History(world.server.log + [w], ROW)).0 < 300
    ensures var responses := Responses(Serving(site), world.server, PhantomBatch(w), NOBODY);
            Next(site, world, Transact(0, NOBODY, {}, false)) ==
              World(Server(Before(Serving(site), world.server, PhantomBatch(w), NOBODY, 3).store, world.server.log),
                    world.caches[client := PutAll(CacheOf(world, client), PhantomBatch(w), responses, {})],
                    world.flights - {0})
  {
    var sent := Conditionals<B>(PhantomBatch(w), [None, None, None]);
    assert sent == PhantomBatch(w);
    PhantomFails(site, world.server, w);
    OthersWroteNothing(world.server.log);
    FailingLast(site, world, Transact(0, NOBODY, {}, false), client, sent);
  }

  /** What a transactional batch whose last operation failed leaves behind. */
  lemma FailingLast<B>(site: Site<B>, world: World<B>, step: Step, client: nat, sent: seq<Request>)
    requires step.Transact? && Awaits(world, step.id, step.others) && !step.lost
    requires world.flights[step.id].client == client
    requires sent == Conditionals(world.flights[step.id].requests, world.flights[step.id].found)
    requires var responses := Responses(Serving(site), world.server, sent, step.others);
             !AllSucceed(responses) && Executed(responses) == |responses|
    ensures var responses := Responses(Serving(site), world.server, sent, step.others);
            Next(site, world, step) ==
              World(RolledBack(Serving(site), world.server, sent, step.others, |sent|),
                    world.caches[client := PutAll(CacheOf(world, client), sent, responses, step.failed)],
                    world.flights - {step.id})
  {
  }

  lemma LastFails<B>(responses: seq<Response<B>>)
    requires |responses| == 3 && Succeeds(responses[0]) && Succeeds(responses[1]) && !Succeeds(responses[2])
    ensures Executed(responses) == 3 && !AllSucceed(responses) && IsTaken(responses)
  {
  }

  lemma OthersWroteNothing(log: seq<Write>)
    ensures WithoutOwn(log, NOBODY, 3) == log
  {
    assert WithoutOwn(log, NOBODY, 1) == log && WithoutOwn(log, NOBODY, 2) == log;
  }

  lemma StoredAtOne<B>(cache: map<Resource, Response<B>>, sent: seq<Request>, responses: seq<Response<B>>)
    requires |sent| == |responses| == 3 && IsStored(sent[1], responses[1]) && sent[2].Modify?
    ensures var after := PutAll(cache, sent, responses, {});
            sent[1].resource in after && after[sent[1].resource] == responses[1]
  {
    assert sent[..2][1] == sent[1] && responses[..2][1] == responses[1];
    var two := PutAll(cache, sent[..2], responses[..2], {});
    assert two == Put(PutAll(cache, sent[..2][..1], responses[..2][..1], {}), sent[1], responses[1], false);
  }

  /** A stored page whose tag is current is delivered, whatever the server would render. */
  lemma StoredIsDelivered<B>(site: Site<B>, w: World<B>, client: nat, r: Resource, page: Response<B>)
    requires Valid(w.server.store) && w.flights == map[] && r in CacheOf(w, client) && CacheOf(w, client)[r] == page
    requires page.Page? && page.etag.context == "en" && page.etag.version < w.server.store.next
    requires Current(w.server.store, SubjectOf(r)) == Some(page.etag.version)
    requires (page.status, page.body) != site(r, "en", History(w.server.log, r))
    ensures var asked := Next(site, w, Start(1, client, [Get(r, "en", None)]));
            Awaits(asked, 1, [[]]) && Delivered(site, asked, 1, [[]]) != Uncached(site, asked, 1, [[]])
  {
    var asked := Next(site, w, Start(1, client, [Get(r, "en", None)]));
    assert asked.flights[1] == Flight(client, [Get(r, "en", None)], [Some(page)]);
    assert Conditionals([Get(r, "en", None)], [Some(page)]) == [Get(r, "en", Some(page.etag))];
    TagTakenAsCurrent(site, w.server, r, page.etag, []);
    OneOperation(Serving(site), w.server, Get(r, "en", Some(page.etag)));
    OneOperation(Serving(site), w.server, Get(r, "en", None));
    assert Delivered(site, asked, 1, [[]])[0] == page;
    var plain := Uncached(site, asked, 1, [[]])[0];
    assert plain.Page? && (plain.status, plain.body) == site(r, "en", History(w.server.log, r));
  }

  /** From then on reading row 1 brings the phantom, on every site that shows the write. */
  lemma PhantomIsServed<B>(site: Site<B>, world: World<B>, w: Write, client: nat)
    requires Valid(world.server.store) && world.flights == map[0 := Flight(client, PhantomBatch(w), [None, None, None])]
    requires site(ROW, "en", History(world.server.log + [w], ROW)).0 < 300
    requires site(ROW, "en", History(world.server.log + [w], ROW)) != site(ROW, "en", History(world.server.log, ROW))
    ensures var rolledBack := Next(site, world, Transact(0, NOBODY, {}, false));
            var asked := Next(site, rolledBack, Start(1, client, [Get(ROW, "en", None)]));
            && Awaits(asked, 1, [[]])
            && Delivered(site, asked, 1, [[]]) != Uncached(site, asked, 1, [[]])
  {
    PhantomWorld(site, world, w, client);
    PhantomIsStored(site, world.server, w, CacheOf(world, client));
    var rolledBack := Next(site, world, Transact(0, NOBODY, {}, false));
    StoredIsDelivered(site, rolledBack, client, ROW, CacheOf(rolledBack, client)[ROW]);
  }

  lemma OneOperation<B>(h: Handler<B>, sv: Server, req: Request)
    ensures Responses(h, sv, [req], [[]]) == [h(sv, req).1]
  {
    assert Reached(h, sv, [req], [[]], 0) == sv;
  }

  // ---- the two parties as objects ----

  /** The stored responses by position. */
  function Collected<B>(found: seq<Option<Response<B>>>): map<nat, Response<B>>
  {
    map i: nat | i < |found| && found[i].Some? :: found[i].value
  }

  const MISMATCH := "Responses count does not match requests count"

  /** What becomes of a request and its responses: it never gets to the operations, and an error
      is thrown, or it is refused with JSON that has no length; it is worked through, and an error
      is thrown; or the first few responses come, or all and possibly more. */
  datatype Arrival<B> =
    | Unsent(error: string)
    | Refused
    | Broken(error: string)
    | Arrived(count: nat, extra: seq<Response<B>>)

  /** What the call resolves to: a list, or whatever JSON the reply was. */
  datatype Reply<B> = Listed(responses: seq<Response<B>>) | Unlisted

  lemma PutAllStep<B>(cache: map<Resource, Response<B>>, reqs: seq<Request>, responses: seq<Response<B>>,
                      failed: set<nat>, i: nat)
    requires i < |reqs| <= |responses|
    ensures PutAll(cache, reqs[..i + 1], responses[..i + 1], failed) ==
              Put(PutAll(cache, reqs[..i], responses[..i], failed), reqs[i], responses[i], i in failed)
  {
    assert reqs[..i + 1][..i] == reqs[..i] && responses[..i + 1][..i] == responses[..i];
  }

  class Backend<B> {
    const handler: Handler<B>
    var server: Server

    constructor (site: Site<B>)
      ensures handler == Serving(site) && server == Server(Store(map[], 0), [])
    {
      handler := Serving(site);
      server := Server(Store(map[], 0), []);
    }

    /** The body of a bulk request, operation by operation. */
    method Bulk(requests: seq<Request>, others: seq<seq<Event>>) returns (responses: seq<Response<B>>)
      requires |requests| == |others|
      modifies this
      ensures server == Before(handler, old(server), requests, others, |requests|)
      ensures responses == Responses(handler, old(server), requests, others)
    {
      responses := [];
      for i := 0 to |requests|
        invariant server == Before(handler, old(server), requests, others, i)
        invariant |responses| == i
        invariant forall k :: 0 <= k < i ==> responses[k] == ResponseAt(handler, old(server), requests, others, k)
      {
        var (after, response) := handler(HappenAll(server, others[i]), requests[i]);
        server := after;
        responses := responses + [response];
      }
    }
  }

  class BrowserCache<B> {
    var entries: map<Resource, Response<B>>

    constructor ()
      ensures entries == map[]
    {
      entries := map[];
    }

    /** Collect the stored responses and make their requests conditional.  The headers are
        written into the caller's own request objects, which stay so. */
    method Prepare(requests: array<Request>) returns (cachedValues: map<nat, Response<B>>)
      modifies requests
      ensures requests[..] == Conditionals(old(requests[..]), Matches(entries, old(requests[..])))
      ensures cachedValues == Collected(Matches(entries, old(requests[..])))
    {
      cachedValues := map[];
      ghost var given := requests[..];
      ghost var found := Matches(entries, given);
      for i := 0 to requests.Length
        invariant forall k :: 0 <= k < i ==> requests[k] == Conditional(given[k], found[k])
        invariant forall k :: i <= k < requests.Length ==> requests[k] == given[k]
        invariant forall k :: 0 <= k < requests.Length ==> (k in cachedValues <==> k < i && found[k].Some?)
        invariant forall k :: k in cachedValues ==> k < requests.Length && found[k] == Some(cachedValues[k])
      {
        var item := requests[i];
        if item.Get? && item.resource in entries {
          var cached := entries[item.resource];
          cachedValues := cachedValues[i := cached];
          requests[i] := item.(ifNoneMatch := Some(cached.etag));
        }
      }
      assert requests[..] == Conditionals(given, found);
    }

    /** Substitute stored responses for 304 and store the pages that came.  Responses beyond
        the requests are handed through: nothing was stored for them, and building the request
        to store them under fails. */
    method Accept(sent: seq<Request>, raw: seq<Response<B>>, ghost found: seq<Option<Response<B>>>,
                  cachedValues: map<nat, Response<B>>, failed: set<nat>)
      returns (responses: seq<Response<B>>)
      requires |raw| >= |sent| == |found| && cachedValues == Collected(found)
      modifies this
      ensures responses == SubstitutedAll(raw[..|sent|], found) + raw[|sent|..]
      ensures entries == PutAll(old(entries), sent, raw[..|sent|], failed)
    {
      responses := raw;
      for i := 0 to |raw|
        invariant |responses| == |raw|
        invariant forall k :: 0 <= k < i ==>
                    responses[k] == if k < |sent| then Substituted(raw[k], found[k]) else raw[k]
        invariant forall k :: i <= k < |raw| ==> responses[k] == raw[k]
        invariant entries == if i <= |sent| then PutAll(old(entries), sent[..i], raw[..i], failed)
                             else PutAll(old(entries), sent, raw[..|sent|], failed)
      {
        var response := responses[i];
        if response.NotModified? && i in cachedValues {
          responses := responses[i := cachedValues[i]];
        }
        if i < |sent| && IsStored(sent[i], response) && i !in failed {
          entries := entries[sent[i].resource := response];
        }
        if i < |sent| {
          PutAllStep(old(entries), sent, raw, failed, i);
        }
        assert sent[..|sent|] == sent;
      }
      assert sent[..|sent|] == sent;
    }

    /** The whole exchange.  When an error is thrown or too few responses come, the cache stays as
        it is and the call fails; when the reply has no length, the cache stays as it is and the
        call succeeds with whatever it was. */
    method SendBulkCached(backend: Backend<B>, requests: array<Request>, others: seq<seq<Event>>, failed: set<nat>,
                          arrival: Arrival<B>)
      returns (r: Result<Reply<B>, string>)
      requires requests.Length == |others|
      modifies this, backend, requests
      ensures requests[..] == Conditionals(old(requests[..]), Matches(old(entries), old(requests[..])))
      ensures var found := Matches(old(entries), old(requests[..]));
              var sent := requests[..];
              var raw := Responses(backend.handler, old(backend.server), sent, others);
              && (backend.server == if arrival.Unsent? || arrival.Refused? then old(backend.server)
                                    else Before(backend.handler, old(backend.server), sent, others, |sent|))
              && match arrival
                 case Unsent(e) => r == Err(e) && entries == old(entries)
                 case Refused => r == Ok(Unlisted) && entries == old(entries)
                 case Broken(e) => r == Err(e) && entries == old(entries)
                 case Arrived(count, extra) =>
                   if count < |sent| then
                     r == Err("Responses count does not match requests count") && entries == old(entries)
                   else
                     && r == Ok(Listed(SubstitutedAll(raw, found) + extra))
                     && entries == PutAll(old(entries), sent, raw, failed)
    {
      ghost var found := Matches(entries, requests[..]);
      var cachedValues := Prepare(requests);
      var sent := requests[..];
      if arrival.Unsent? {
        return Err(arrival.error);
      }
      if arrival.Refused? {
        return Ok(Unlisted);
      }
      var raw := backend.Bulk(sent, others);
      if arrival.Broken? {
        return Err(arrival.error);
      }
      var reply := if arrival.count < |raw| then raw[..arrival.count] else raw + arrival.extra;
      if |reply| < |sent| {
        return Err(MISMATCH);
      }
      assert reply[..|sent|] == raw && reply[|sent|..] == arrival.extra;
      var responses := Accept(sent, reply, found, cachedValues, failed);
      r := Ok(Listed(responses));
    }
  }
}
