/** Conditional requests on both sides of the wire: the server answers 304 and 412 from the
    version store (vstutils/api/base.py), the browser keeps a response cache for bulk
    requests (frontend_src/vstutils/bulk.ts).  Every change of data goes through the save and
    delete signals; what a response shows is a function of the writes that cover it. */
module HttpCache {
  import opened Common
  import opened EtagStore

  /** The values an etag depends on beside the version: language, user, session. */
  type Context = string

  datatype ETag = ETag(version: Uuid, context: Context)

  /** A list (no row) or a detail view, with the query string. */
  datatype Resource = Resource(row: Option<Pk>, query: string)

  function SubjectOf(r: Resource): Subject
  {
    if r.row.None? then Table else Row(r.row.value)
  }

  /** post_save or post_delete, of an instance of the model or of a related one. */
  datatype Signal = Own(pk: Pk) | Related

  datatype Write = Write(signal: Signal, content: int)

  function KeysForEtagUpdate(signal: Signal): Target
  {
    match signal
    case Own(pk) => Rows([Some(pk)])
    case Related => All
  }

  predicate Touches(w: Write, r: Resource)
  {
    Covers(KeysForEtagUpdate(w.signal), SubjectOf(r))
  }

  /** The version store, and every write made so far. */
  datatype Server = Server(store: Store, log: seq<Write>)

  /** The writes a resource's representation can depend on. */
  function History(log: seq<Write>, r: Resource): seq<Write>
  {
    if log == [] then [] else
    var w := log[|log| - 1];
    History(log[..|log| - 1], r) + (if Touches(w, r) then [w] else [])
  }

  /** How the site renders a resource: status and body. */
  type Site<!B> = (Resource, Context, seq<Write>) -> (nat, B)

  datatype Request =
    | Get(resource: Resource, context: Context, ifNoneMatch: Option<ETag>)
    | Modify(resource: Resource, context: Context, ifMatch: Option<ETag>, writes: seq<Write>)

  /** NotModified is 304, PreconditionFailed 412; each response carries the ETag header. */
  datatype Response<B> =
    | Page(status: nat, body: B, etag: ETag)
    | NotModified(etag: ETag)
    | Modified(etag: ETag)
    | PreconditionFailed(etag: ETag)

  /** Data is written and the signal invalidates what it covers. */
  function Save(sv: Server, w: Write): Server
  {
    Server(Renew(sv.store, KeysForEtagUpdate(w.signal)), sv.log + [w])
  }

  function SaveAll(sv: Server, ws: seq<Write>): Server
    decreases |ws|
  {
    if ws == [] then sv else SaveAll(Save(sv, ws[0]), ws[1..])
  }

  function ReadTag(sv: Server, r: Resource, context: Context): (Server, ETag)
  {
    var (store, v) := Fetch(sv.store, SubjectOf(r));
    (Server(store, sv.log), ETag(v, context))
  }

  /** One request: the tag is read to check the condition and once more for the header. */
  function Handle<B>(site: Site<B>, sv: Server, req: Request): (Server, Response<B>)
  {
    var (checked, tag) := ReadTag(sv, req.resource, req.context);
    match req
    case Get(r, context, ifNoneMatch) =>
      var (status, body) := site(r, context, History(sv.log, r));
      var (done, header) := ReadTag(checked, r, context);
      (done, if ifNoneMatch == Some(tag) then NotModified(header) else Page(status, body, header))
    case Modify(r, context, ifMatch, writes) =>
      var refused := ifMatch.Some? && ifMatch != Some(tag);
      var saved := if refused then checked else SaveAll(checked, writes);
      var (done, header) := ReadTag(saved, r, context);
      (done, if refused then PreconditionFailed(header) else Modified(header))
  }

  /** What others do meanwhile: write, read versions; and entries of the etag cache time out. */
  datatype Event = Written(w: Write) | Asked(subject: Subject) | Expired(keys: set<Key>)

  function Happen(sv: Server, e: Event): Server
  {
    match e
    case Written(w) => Save(sv, w)
    case Asked(subject) => Server(Fetch(sv.store, subject).0, sv.log)
    case Expired(keys) => Server(Evict(sv.store, keys), sv.log)
  }

  function HappenAll(sv: Server, es: seq<Event>): Server
  {
    if es == [] then sv else Happen(HappenAll(sv, es[..|es| - 1]), es[|es| - 1])
  }

  /** A way of handling requests. */
  type Handler<!B> = (Server, Request) -> (Server, Response<B>)

  function Serving<B>(site: Site<B>): Handler<B>
  {
    (sv, req) => Handle(site, sv, req)
  }

  /** The server before request k of a sequence of requests, each preceded by what others did. */
  function Before<B>(h: Handler<B>, sv: Server, reqs: seq<Request>, others: seq<seq<Event>>, k: nat): Server
    requires k <= |reqs| == |others|
    decreases k, 0
  {
    if k == 0 then sv else h(Reached(h, sv, reqs, others, k - 1), reqs[k - 1]).0
  }

  /** The server when it gets to request k. */
  function Reached<B>(h: Handler<B>, sv: Server, reqs: seq<Request>, others: seq<seq<Event>>, k: nat): Server
    requires k < |reqs| == |others|
    decreases k, 1
  {
    HappenAll(Before(h, sv, reqs, others, k), others[k])
  }

  function ResponseAt<B>(h: Handler<B>, sv: Server, reqs: seq<Request>, others: seq<seq<Event>>, k: nat): Response<B>
    requires k < |reqs| == |others|
  {
    h(Reached(h, sv, reqs, others, k), reqs[k]).1
  }

  // ---- versions never come back ----

  /** A version drawn before a that is current for the resource in b was current in a, and
      nothing the resource shows was written in between. */
  ghost predicate SameSince(a: Server, b: Server, r: Resource)
  {
    var before, after := Current(a.store, SubjectOf(r)), Current(b.store, SubjectOf(r));
    after.Some? && after.value < a.store.next ==> before == after && History(b.log, r) == History(a.log, r)
  }

  /** What holds between the server and itself after any activity. */
  ghost predicate Follows(a: Server, b: Server)
  {
    && Valid(b.store)
    && a.store.next <= b.store.next
    && forall r :: SameSince(a, b, r)
  }

  lemma FollowsTransitive(a: Server, b: Server, c: Server)
    requires Follows(a, b) && Follows(b, c)
    ensures Follows(a, c)
  {
    forall r ensures SameSince(a, c, r) {
      assert SameSince(a, b, r) && SameSince(b, c, r);
    }
  }

  lemma ReadFollows(sv: Server, subject: Subject)
    requires Valid(sv.store)
    ensures Follows(sv, Server(Fetch(sv.store, subject).0, sv.log))
  {
    ReadIsStable(sv.store, subject);
    forall r: Resource ensures SameSince(sv, Server(Fetch(sv.store, subject).0, sv.log), r) {
      ReadKeepsOthers(sv.store, subject, SubjectOf(r));
    }
  }

  lemma SaveFollows(sv: Server, w: Write)
    requires Valid(sv.store)
    ensures Follows(sv, Save(sv, w))
  {
    InvalidationIsExact(sv.store, KeysForEtagUpdate(w.signal), Table);
    forall r: Resource ensures SameSince(sv, Save(sv, w), r) {
      InvalidationIsExact(sv.store, KeysForEtagUpdate(w.signal), SubjectOf(r));
      assert Save(sv, w).log[..|sv.log|] == sv.log;
    }
  }

  // ---- what a signal touches ----

  /** A related instance touches every list and every row, an instance of the model the lists and
      its own row. */
  lemma WhatIsTouched(content: int, pk: Pk, row: Option<Pk>, query: string)
    ensures Touches(Write(Related, content), Resource(row, query))
    ensures Touches(Write(Own(pk), content), Resource(row, query)) <==> row.None? || row == Some(pk)
  {
  }

  /** When a related instance was saved, no version drawn before is current for anything. */
  lemma RelatedSaveInvalidates(sv: Server, content: int, pk: Pk)
    requires Valid(sv.store)
    ensures var after := Save(sv, Write(Related, content)).store;
            && Valid(after) && sv.store.next <= after.next
            && (Current(after, Table).Some? ==> Current(after, Table).value >= sv.store.next)
            && (Current(after, Row(pk)).Some? ==> Current(after, Row(pk)).value >= sv.store.next)
  {
    InvalidationIsExact(sv.store, All, Table);
    InvalidationIsExact(sv.store, All, Row(pk));
  }

  /** When an instance was saved, no version drawn before is current for the table and its row,
      and every other row keeps its version. */
  lemma OwnSaveInvalidates(sv: Server, pk: Pk, content: int, other: Pk)
    requires Valid(sv.store)
    ensures var after := Save(sv, Write(Own(pk), content)).store;
            && Valid(after) && sv.store.next <= after.next
            && (Current(after, Table).Some? ==> Current(after, Table).value >= sv.store.next)
            && (Current(after, Row(pk)).Some? ==> Current(after, Row(pk)).value >= sv.store.next)
            && (other != pk && Current(sv.store, Row(other)).Some? ==>
                  Current(after, Row(other)) == Current(sv.store, Row(other)))
  {
    InvalidationIsExact(sv.store, Rows([Some(pk)]), Table);
    InvalidationIsExact(sv.store, Rows([Some(pk)]), Row(pk));
    InvalidationIsExact(sv.store, Rows([Some(pk)]), Row(other));
  }

  /** What a client sees of it: after a related instance was saved, every page is sent anew,
      whatever tag it was asked for with. */
  lemma RelatedSaveIsSeen<B>(site: Site<B>, sv: Server, content: int, row: Option<Pk>, query: string, tag: ETag)
    requires Valid(sv.store) && tag.version < sv.store.next
    ensures Handle(site, Save(sv, Write(Related, content)), Get(Resource(row, query), tag.context, Some(tag))).1.Page?
  {
    var after := Save(sv, Write(Related, content));
    RelatedSaveInvalidates(sv, content, if row.Some? then row.value else 0);
    ReadIsStable(after.store, SubjectOf(Resource(row, query)));
  }

  /** After an instance was saved, the lists and its own page are sent anew; a tag that was good for
      another row still is. */
  lemma OwnSaveIsSeen<B>(site: Site<B>, sv: Server, pk: Pk, content: int, row: Option<Pk>, query: string, tag: ETag)
    requires Valid(sv.store) && tag.version < sv.store.next
    ensures var asked := Get(Resource(row, query), tag.context, Some(tag));
            var before, after := Handle(site, sv, asked).1, Handle(site, Save(sv, Write(Own(pk), content)), asked).1;
            && (row.None? || row == Some(pk) ==> after.Page?)
            && (row.Some? && row != Some(pk) && before.NotModified? ==> after.NotModified?)
  {
    var after := Save(sv, Write(Own(pk), content));
    OwnSaveInvalidates(sv, pk, content, if row.Some? then row.value else pk);
    ReadIsStable(sv.store, SubjectOf(Resource(row, query)));
    ReadIsStable(after.store, SubjectOf(Resource(row, query)));
  }

  /** What others do is done: a version that was asked for is current, an entry that expired is
      gone, and neither changes any data. */
  lemma EventsHappen(sv: Server, subject: Subject, keys: set<Key>)
    requires Valid(sv.store)
    ensures Current(Happen(sv, Asked(subject)).store, subject).Some? && Happen(sv, Asked(subject)).log == sv.log
    ensures Happen(sv, Expired(keys)).log == sv.log
    ensures forall k :: k in keys ==> k !in Happen(sv, Expired(keys)).store.entries
    ensures PostfixKey in keys ==> forall pk :: Current(Happen(sv, Expired(keys)).store, Row(pk)).None?
  {
    ReadIsStable(sv.store, subject);
  }

  lemma ExpiryFollows(sv: Server, keys: set<Key>)
    requires Valid(sv.store)
    ensures Follows(sv, Server(Evict(sv.store, keys), sv.log))
  {
    EvictionForgets(sv.store, keys, Table);
    forall r: Resource ensures SameSince(sv, Server(Evict(sv.store, keys), sv.log), r) {
      EvictionForgets(sv.store, keys, SubjectOf(r));
    }
  }

  lemma {:induction false} SaveAllFollows(sv: Server, ws: seq<Write>)
    requires Valid(sv.store)
    ensures Follows(sv, SaveAll(sv, ws))
    decreases |ws|
  {
    if ws != [] {
      SaveFollows(sv, ws[0]);
      SaveAllFollows(Save(sv, ws[0]), ws[1..]);
      FollowsTransitive(sv, Save(sv, ws[0]), SaveAll(sv, ws));
    }
  }

  lemma {:induction false} HappenAllFollows(sv: Server, es: seq<Event>)
    requires Valid(sv.store)
    ensures Follows(sv, HappenAll(sv, es))
    decreases |es|
  {
    if es != [] {
      var before := HappenAll(sv, es[..|es| - 1]);
      HappenAllFollows(sv, es[..|es| - 1]);
      match es[|es| - 1] {
        case Written(w) => SaveFollows(before, w);
        case Asked(subject) => ReadFollows(before, subject);
        case Expired(keys) => ExpiryFollows(before, keys);
      }
      FollowsTransitive(sv, before, HappenAll(sv, es));
    }
  }

  lemma HandleFollows<B>(site: Site<B>, sv: Server, req: Request)
    requires Valid(sv.store)
    ensures Follows(sv, Handle(site, sv, req).0)
  {
    var (checked, tag) := ReadTag(sv, req.resource, req.context);
    ReadFollows(sv, SubjectOf(req.resource));
    if req.Modify? { SaveAllFollows(checked, req.writes); }
    var accepted := req.Modify? && (req.ifMatch.None? || req.ifMatch == Some(tag));
    var saved := if accepted then SaveAll(checked, req.writes) else checked;
    ReadFollows(saved, SubjectOf(req.resource));
    if saved != checked { FollowsTransitive(sv, checked, saved); }
    FollowsTransitive(sv, saved, Handle(site, sv, req).0);
  }

  /** What the results about runs need of a handler. */
  ghost predicate Trustworthy<B>(h: Handler<B>)
  {
    forall sv: Server, req: Request :: Valid(sv.store) ==>
      Follows(sv, h(sv, req).0) && Truthful(sv, req, h(sv, req).0, h(sv, req).1)
  }

  /** The tag in a response is current when the request is done; an accepted If-Match named
      the version that was current when the request came. */
  ghost predicate Truthful<B>(sv: Server, req: Request, after: Server, response: Response<B>)
  {
    && response.etag.version < after.store.next
    && Current(after.store, SubjectOf(req.resource)) == Some(response.etag.version)
    && (response.Modified? && req.Modify? && req.ifMatch.Some? && req.ifMatch.value.version < sv.store.next ==>
          Current(sv.store, SubjectOf(req.resource)) == Some(req.ifMatch.value.version))
  }

  lemma HandleIsTruthful<B>(site: Site<B>, sv: Server, req: Request)
    requires Valid(sv.store)
    ensures Truthful(sv, req, Handle(site, sv, req).0, Handle(site, sv, req).1)
  {
    HandleFollows(site, sv, req);
    var (checked, tag) := ReadTag(sv, req.resource, req.context);
    ReadIsStable(sv.store, SubjectOf(req.resource));
    if req.Modify? && (req.ifMatch.None? || req.ifMatch == Some(tag)) {
      SaveAllFollows(checked, req.writes);
      ReadIsStable(SaveAll(checked, req.writes).store, SubjectOf(req.resource));
    } else {
      ReadIsStable(checked.store, SubjectOf(req.resource));
    }
  }

  lemma ServingIsTrustworthy<B>(site: Site<B>)
    ensures Trustworthy(Serving(site))
  {
    forall sv: Server, req: Request | Valid(sv.store)
      ensures Follows(sv, Serving(site)(sv, req).0)
      ensures Truthful(sv, req, Serving(site)(sv, req).0, Serving(site)(sv, req).1)
    {
      HandleFollows(site, sv, req);
      HandleIsTruthful(site, sv, req);
    }
  }

  lemma StepFollows<B>(h: Handler<B>, sv: Server, reqs: seq<Request>, others: seq<seq<Event>>, k: nat)
    requires Trustworthy(h) && k < |reqs| == |others|
    requires Valid(Before(h, sv, reqs, others, k).store)
    ensures Follows(Before(h, sv, reqs, others, k), Reached(h, sv, reqs, others, k))
    ensures Follows(Before(h, sv, reqs, others, k), Before(h, sv, reqs, others, k + 1))
  {
    var a, mid := Before(h, sv, reqs, others, k), Reached(h, sv, reqs, others, k);
    HappenAllFollows(a, others[k]);
    FollowsTransitive(a, mid, h(mid, reqs[k]).0);
  }

  lemma {:induction false} RunFollows<B>(h: Handler<B>, sv: Server, reqs: seq<Request>, others: seq<seq<Event>>,
                                         i: nat, j: nat)
    requires Trustworthy(h) && i <= j <= |reqs| == |others|
    requires Valid(Before(h, sv, reqs, others, i).store)
    ensures Follows(Before(h, sv, reqs, others, i), Before(h, sv, reqs, others, j))
  {
    if i < j {
      RunFollows(h, sv, reqs, others, i, j - 1);
      StepFollows(h, sv, reqs, others, j - 1);
      FollowsTransitive(Before(h, sv, reqs, others, i), Before(h, sv, reqs, others, j - 1),
                        Before(h, sv, reqs, others, j));
    }
  }

  lemma RunReaches<B>(h: Handler<B>, sv: Server, reqs: seq<Request>, others: seq<seq<Event>>, i: nat, j: nat)
    requires Trustworthy(h) && i <= j < |reqs| == |others|
    requires Valid(Before(h, sv, reqs, others, i).store)
    ensures Follows(Before(h, sv, reqs, others, i), Reached(h, sv, reqs, others, j))
  {
    RunFollows(h, sv, reqs, others, i, j);
    StepFollows(h, sv, reqs, others, j);
    FollowsTransitive(Before(h, sv, reqs, others, i), Before(h, sv, reqs, others, j), Reached(h, sv, reqs, others, j));
  }

  /** Does the tag name the version that is current for the resource in this context? */
  predicate IsCurrentTag(sv: Server, r: Resource, context: Context, tag: ETag)
  {
    tag.context == context && Current(sv.store, SubjectOf(r)) == Some(tag.version)
  }

  /** A tag made before is answered 304 exactly when it is current, and a write is refused
      exactly when its tag is not; a refused write writes nothing, an accepted one everything. */
  lemma ConditionsDecide<B>(site: Site<B>, sv: Server, req: Request)
    requires Valid(sv.store)
    requires req.Get? && req.ifNoneMatch.Some? ==> req.ifNoneMatch.value.version < sv.store.next
    requires req.Modify? && req.ifMatch.Some? ==> req.ifMatch.value.version < sv.store.next
    ensures var (after, response) := Handle(site, sv, req);
            match req
            case Get(r, context, ifNoneMatch) =>
              && (response.NotModified? <==> ifNoneMatch.Some? && IsCurrentTag(sv, r, context, ifNoneMatch.value))
              && after.log == sv.log
            case Modify(r, context, ifMatch, writes) =>
              && (response.PreconditionFailed? <==> ifMatch.Some? && !IsCurrentTag(sv, r, context, ifMatch.value))
              && after.log == sv.log + (if response.PreconditionFailed? then [] else writes)
  {
    ReadIsStable(sv.store, SubjectOf(req.resource));
    if req.Modify? { SaveAllWrites(ReadTag(sv, req.resource, req.context).0, req.writes); }
  }

  lemma {:induction false} SaveAllWrites(sv: Server, ws: seq<Write>)
    ensures SaveAll(sv, ws).log == sv.log + ws
    decreases |ws|
  {
    if ws != [] {
      SaveAllWrites(Save(sv, ws[0]), ws[1..]);
      assert ws == [ws[0]] + ws[1..];
    }
  }

  // ---- no lost update ----

  /** In any sequence of requests of any clients, with other writes, reads and expiries in
      between: a write accepted with If-Match finds the row as it was when the response that
      carried the tag was made; no write touching it came in between. */
  lemma NoLostUpdate<B>(site: Site<B>, sv: Server, reqs: seq<Request>, others: seq<seq<Event>>, i: nat, j: nat)
    requires Valid(sv.store) && i < j < |reqs| == |others|
    requires reqs[j].Modify? && reqs[j].resource.row == reqs[i].resource.row
    requires reqs[j].ifMatch == Some(ResponseAt(Serving(site), sv, reqs, others, i).etag)
    requires ResponseAt(Serving(site), sv, reqs, others, j).Modified?
    ensures History(Reached(Serving(site), sv, reqs, others, j).log, reqs[j].resource)
         == History(Before(Serving(site), sv, reqs, others, i + 1).log, reqs[j].resource)
  {
    ServingIsTrustworthy(site);
    AcceptedMeansUnchanged(Serving(site), sv, reqs, others, i, j);
  }

  lemma AcceptedMeansUnchanged<B>(h: Handler<B>, sv: Server, reqs: seq<Request>, others: seq<seq<Event>>, i: nat,
                                  j: nat)
    requires Trustworthy(h)
    requires Valid(sv.store) && i < j < |reqs| == |others|
    requires reqs[j].Modify? && reqs[j].resource.row == reqs[i].resource.row
    requires reqs[j].ifMatch == Some(ResponseAt(h, sv, reqs, others, i).etag)
    requires ResponseAt(h, sv, reqs, others, j).Modified?
    ensures History(Reached(h, sv, reqs, others, j).log, reqs[j].resource)
         == History(Before(h, sv, reqs, others, i + 1).log, reqs[j].resource)
  {
    TagIsCurrentThen(h, sv, reqs, others, i);
    RunReaches(h, sv, reqs, others, i + 1, j);
    TagIsCurrentNow(h, Reached(h, sv, reqs, others, j), reqs[j]);
    assert SameSince(Before(h, sv, reqs, others, i + 1), Reached(h, sv, reqs, others, j), reqs[j].resource);
  }

  /** The tag of response i is current when the request is done. */
  lemma TagIsCurrentThen<B>(h: Handler<B>, sv: Server, reqs: seq<Request>, others: seq<seq<Event>>, i: nat)
    requires Trustworthy(h) && Valid(sv.store) && i < |reqs| == |others|
    ensures var after, tag := Before(h, sv, reqs, others, i + 1), ResponseAt(h, sv, reqs, others, i).etag;
            && Valid(after.store)
            && tag.version < after.store.next
            && Current(after.store, SubjectOf(reqs[i].resource)) == Some(tag.version)
  {
    var read := Reached(h, sv, reqs, others, i);
    RunReaches(h, sv, reqs, others, 0, i);
    assert Follows(read, h(read, reqs[i]).0);
    assert Truthful(read, reqs[i], h(read, reqs[i]).0, h(read, reqs[i]).1);
  }

  lemma TagIsCurrentNow<B>(h: Handler<B>, write: Server, req: Request)
    requires Trustworthy(h) && Valid(write.store)
    requires req.Modify? && req.ifMatch.Some? && req.ifMatch.value.version < write.store.next
    requires h(write, req).1.Modified?
    ensures Current(write.store, SubjectOf(req.resource)) == Some(req.ifMatch.value.version)
  {
    assert Truthful(write, req, h(write, req).0, h(write, req).1);
  }

  // ---- the tag of a page is computed after its body ----

  /** A page may be stored with its tag: whatever happens next, the server answers 304 to that
      tag only while the writes the page shows are still all the writes there are. */
  ghost predicate SafeToStore<B>(site: Site<B>, sv: Server, r: Resource, tag: ETag, shown: seq<Write>)
  {
    forall es: seq<Event> ::
      var later := HappenAll(sv, es);
      Handle(site, later, Get(r, tag.context, Some(tag))).1.NotModified? ==> History(later.log, r) == shown
  }

  /** A page may be edited and submitted with its tag: whatever happens next, a write with that
      tag in If-Match is accepted only while the writes the page shows are still all there are. */
  ghost predicate SafeToSubmit<B>(site: Site<B>, sv: Server, r: Resource, tag: ETag, shown: seq<Write>)
  {
    forall es: seq<Event>, ws: seq<Write> ::
      var later := HappenAll(sv, es);
      Handle(site, later, Modify(r, tag.context, Some(tag), ws)).1.Modified? ==> History(later.log, r) == shown
  }

  /** What a 304 and an accepted write say of the version store. */
  lemma TagTakenAsCurrent<B>(site: Site<B>, sv: Server, r: Resource, tag: ETag, ws: seq<Write>)
    requires Valid(sv.store) && tag.version < sv.store.next
    ensures Handle(site, sv, Get(r, tag.context, Some(tag))).1.NotModified? <==>
              Current(sv.store, SubjectOf(r)) == Some(tag.version)
    ensures Handle(site, sv, Modify(r, tag.context, Some(tag), ws)).1.Modified? <==>
              Current(sv.store, SubjectOf(r)) == Some(tag.version)
  {
    ReadIsStable(sv.store, SubjectOf(r));
  }

  /** A tag that is current now will be current later only if nothing was written. */
  lemma CurrentMeansSameHistory(sv: Server, es: seq<Event>, r: Resource, version: Uuid)
    requires Valid(sv.store) && version < sv.store.next
    ensures var later := HappenAll(sv, es);
            && Valid(later.store) && version < later.store.next
            && (Current(later.store, SubjectOf(r)) == Some(version) ==> History(later.log, r) == History(sv.log, r))
  {
    HappenAllFollows(sv, es);
    assert SameSince(sv, HappenAll(sv, es), r);
  }

  /** finalize_response computes the header lazily, when the body is already rendered.  A page
      rendered in state sv whose tag is read after the events es is safe to store if and only
      if none of them was a write that touches it. */
  lemma LateTagIsSafeIff<B>(site: Site<B>, sv: Server, r: Resource, context: Context, es: seq<Event>)
    requires Valid(sv.store)
    ensures var (after, tag) := ReadTag(HappenAll(sv, es), r, context);
            SafeToStore(site, after, r, tag, History(sv.log, r)) <==> !TouchedBy(es, r)
  {
    var (after, tag) := ReadTag(HappenAll(sv, es), r, context);
    LateTagIsCurrent(sv, r, context, es);
    HistoryGrows(sv, es, r);
    assert HappenAll(after, []) == after;
    TagTakenAsCurrent(site, after, r, tag, []);
    if !TouchedBy(es, r) {
      forall later_es: seq<Event>
        ensures var later := HappenAll(after, later_es);
                Handle(site, later, Get(r, context, Some(tag))).1.NotModified? ==>
                  History(later.log, r) == History(sv.log, r)
      {
        CurrentMeansSameHistory(after, later_es, r, tag.version);
        TagTakenAsCurrent(site, HappenAll(after, later_es), r, tag, []);
      }
    }
  }

  /** The same delay loses updates: a write made from that page, with its tag in If-Match, is
      accepted only over the row the page shows if and only if no write touched the page between
      its body and its tag. */
  lemma LateTagGuardsIff<B>(site: Site<B>, sv: Server, r: Resource, context: Context, es: seq<Event>)
    requires Valid(sv.store)
    ensures var (after, tag) := ReadTag(HappenAll(sv, es), r, context);
            SafeToSubmit(site, after, r, tag, History(sv.log, r)) <==> !TouchedBy(es, r)
  {
    var (after, tag) := ReadTag(HappenAll(sv, es), r, context);
    LateTagIsCurrent(sv, r, context, es);
    HistoryGrows(sv, es, r);
    assert HappenAll(after, []) == after;
    TagTakenAsCurrent(site, after, r, tag, []);
    if !TouchedBy(es, r) {
      forall later_es: seq<Event>, ws: seq<Write>
        ensures var later := HappenAll(after, later_es);
                Handle(site, later, Modify(r, context, Some(tag), ws)).1.Modified? ==>
                  History(later.log, r) == History(sv.log, r)
      {
        CurrentMeansSameHistory(after, later_es, r, tag.version);
        TagTakenAsCurrent(site, HappenAll(after, later_es), r, tag, ws);
      }
    }
  }

  lemma LateTagIsCurrent(sv: Server, r: Resource, context: Context, es: seq<Event>)
    requires Valid(sv.store)
    ensures var (after, tag) := ReadTag(HappenAll(sv, es), r, context);
            && Valid(after.store) && tag.version < after.store.next && tag.context == context
            && Current(after.store, SubjectOf(r)) == Some(tag.version)
            && after.log == HappenAll(sv, es).log
  {
    HappenAllFollows(sv, es);
    ReadIsStable(HappenAll(sv, es).store, SubjectOf(r));
  }

  /** The check in initial and the save in the handler are apart as well.  A write whose tag
      passed the check lands on the row its page shows if and only if no touching write came
      between check and save. */
  lemma CheckThenWriteIff<B>(site: Site<B>, sv: Server, r: Resource, context: Context, es: seq<Event>,
                             between: seq<Event>)
    requires Valid(sv.store)
    requires var (after, tag) := ReadTag(sv, r, context);
             Handle(site, HappenAll(after, es), Modify(r, context, Some(tag), [])).1.Modified?
    ensures var checked := ReadTag(HappenAll(ReadTag(sv, r, context).0, es), r, context).0;
            History(HappenAll(checked, between).log, r) == History(sv.log, r) <==> !TouchedBy(between, r)
  {
    var (after, tag) := ReadTag(sv, r, context);
    ReadIsStable(sv.store, SubjectOf(r));
    CurrentMeansSameHistory(after, es, r, tag.version);
    TagTakenAsCurrent(site, HappenAll(after, es), r, tag, []);
    var checked := ReadTag(HappenAll(after, es), r, context).0;
    HistoryGrows(checked, between, r);
  }

  /** Two clients edit one page; both checks pass, then the first saves, then the second: what the
      first wrote is overwritten unseen. */
  lemma TwoWritersExample<B>(site: Site<B>)
    ensures var r := Resource(Some(1), "");
            var (after, tag) := ReadTag(Server(Store(map[], 0), []), r, "en");
            var first := ReadTag(after, r, "en").0;
            var second := ReadTag(first, r, "en").0;
            && Handle(site, after, Modify(r, "en", Some(tag), [])).1.Modified?
            && Handle(site, first, Modify(r, "en", Some(tag), [])).1.Modified?
            && History(Save(second, Write(Own(1), 7)).log, r) == [Write(Own(1), 7)]
  {
    var r, w := Resource(Some(1), ""), Write(Own(1), 7);
    var (after, tag) := ReadTag(Server(Store(map[], 0), []), r, "en");
    var first := ReadTag(after, r, "en").0;
    ReadIsStable(Store(map[], 0), SubjectOf(r));
    ReadIsStable(after.store, SubjectOf(r));
    TagTakenAsCurrent(site, after, r, tag, []);
    TagTakenAsCurrent(site, first, r, tag, []);
    assert ([] + [w])[..0] == [];
  }

  predicate TouchedBy(es: seq<Event>, r: Resource)
  {
    exists e :: e in es && e.Written? && Touches(e.w, r)
  }

  /** The writes among some events, in order. */
  function WritesOf(es: seq<Event>): seq<Write>
  {
    if es == [] then [] else
    var e := es[|es| - 1];
    WritesOf(es[..|es| - 1]) + (if e.Written? then [e.w] else [])
  }

  lemma {:induction false} LogGrows(sv: Server, es: seq<Event>)
    ensures HappenAll(sv, es).log == sv.log + WritesOf(es)
    decreases |es|
  {
    if es != [] { LogGrows(sv, es[..|es| - 1]); }
  }

  lemma {:induction false} HistoryOfConcat(log: seq<Write>, more: seq<Write>, r: Resource)
    ensures History(log + more, r) == History(log, r) + History(more, r)
    decreases |more|
  {
    if more == [] {
      assert log + more == log;
    } else {
      HistoryOfConcat(log, more[..|more| - 1], r);
      assert (log + more)[..|log + more| - 1] == log + more[..|more| - 1];
    }
  }

  lemma {:induction false} TouchedIffHistory(es: seq<Event>, r: Resource)
    ensures History(WritesOf(es), r) != [] <==> TouchedBy(es, r)
    decreases |es|
  {
    if es != [] {
      var early, e := es[..|es| - 1], es[|es| - 1];
      TouchedIffHistory(early, r);
      assert es == early + [e];
      assert TouchedBy(es, r) <==> TouchedBy(early, r) || (e.Written? && Touches(e.w, r)) by { assert e in es; }
      HistoryOfConcat(WritesOf(early), if e.Written? then [e.w] else [], r);
    }
  }

  /** A history changes exactly when a write touching the resource happens. */
  lemma HistoryGrows(sv: Server, es: seq<Event>, r: Resource)
    ensures History(HappenAll(sv, es).log, r) == History(sv.log, r) + History(WritesOf(es), r)
    ensures History(WritesOf(es), r) != [] <==> TouchedBy(es, r)
  {
    LogGrows(sv, es);
    HistoryOfConcat(sv.log, WritesOf(es), r);
    TouchedIffHistory(es, r);
  }

  /** Row 1 is rendered, saved by somebody else, and then its tag is read: the page is neither
      safe to store nor safe to submit. */
  lemma LateTagExample<B>(site: Site<B>)
    ensures var r := Resource(Some(1), "");
            var (after, tag) := ReadTag(HappenAll(Server(Store(map[], 0), []), [Written(Write(Own(1), 7))]), r, "en");
            !SafeToStore(site, after, r, tag, []) && !SafeToSubmit(site, after, r, tag, [])
  {
    var e := Written(Write(Own(1), 7));
    assert e in [e] && Touches(e.w, Resource(Some(1), ""));
    LateTagIsSafeIff(site, Server(Store(map[], 0), []), Resource(Some(1), ""), "en", [e]);
    LateTagGuardsIff(site, Server(Store(map[], 0), []), Resource(Some(1), ""), "en", [e]);
  }
}
