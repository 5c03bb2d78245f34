/** When nothing expires in the version store, a conditional write is accepted exactly when
    the row was not written since its tag was made. */
module ConditionalWrites {
  import opened Common
  import opened EtagStore
  import opened HttpCache

  /** A current version stays current until a write touches the resource. */
  ghost predicate KeptUnlessWritten(a: Server, b: Server, r: Resource)
  {
    var before := Current(a.store, SubjectOf(r));
    && History(a.log, r) <= History(b.log, r)
    && (before.Some? && History(a.log, r) == History(b.log, r) ==> Current(b.store, SubjectOf(r)) == before)
  }

  ghost predicate Keeps(a: Server, b: Server)
  {
    Valid(b.store) && forall r :: KeptUnlessWritten(a, b, r)
  }

  lemma KeepsTransitive(a: Server, b: Server, c: Server)
    requires Keeps(a, b) && Keeps(b, c)
    ensures Keeps(a, c)
  {
    forall r ensures KeptUnlessWritten(a, c, r) {
      assert KeptUnlessWritten(a, b, r) && KeptUnlessWritten(b, c, r);
    }
  }

  lemma ReadKeeps(sv: Server, subject: Subject)
    requires Valid(sv.store)
    ensures Keeps(sv, Server(Fetch(sv.store, subject).0, sv.log))
  {
    ReadIsStable(sv.store, subject);
    forall r: Resource ensures KeptUnlessWritten(sv, Server(Fetch(sv.store, subject).0, sv.log), r) {
      ReadKeepsOthers(sv.store, subject, SubjectOf(r));
    }
  }

  lemma SaveKeeps(sv: Server, w: Write)
    requires Valid(sv.store)
    ensures Keeps(sv, Save(sv, w))
  {
    InvalidationIsExact(sv.store, KeysForEtagUpdate(w.signal), Table);
    forall r: Resource ensures KeptUnlessWritten(sv, Save(sv, w), r) {
      InvalidationIsExact(sv.store, KeysForEtagUpdate(w.signal), SubjectOf(r));
      assert Save(sv, w).log[..|sv.log|] == sv.log;
    }
  }

  lemma {:induction false} SaveAllKeeps(sv: Server, ws: seq<Write>)
    requires Valid(sv.store)
    ensures Keeps(sv, SaveAll(sv, ws))
    decreases |ws|
  {
    if ws != [] {
      SaveKeeps(sv, ws[0]);
      SaveAllKeeps(Save(sv, ws[0]), ws[1..]);
      KeepsTransitive(sv, Save(sv, ws[0]), SaveAll(sv, ws));
    }
  }

  predicate NothingExpires(es: seq<Event>)
  {
    forall e :: e in es ==> !e.Expired?
  }

  lemma {:induction false} HappenAllKeeps(sv: Server, es: seq<Event>)
    requires Valid(sv.store) && NothingExpires(es)
    ensures Keeps(sv, HappenAll(sv, es))
    decreases |es|
  {
    if es != [] {
      var before := HappenAll(sv, es[..|es| - 1]);
      HappenAllKeeps(sv, es[..|es| - 1]);
      var e := es[|es| - 1];
      assert e in es;
      if e.Written? { SaveKeeps(before, e.w); } else { ReadKeeps(before, e.subject); }
      KeepsTransitive(sv, before, HappenAll(sv, es));
    }
  }

  lemma HandleKeeps<B>(site: Site<B>, sv: Server, req: Request)
    requires Valid(sv.store)
    ensures Keeps(sv, Handle(site, sv, req).0)
  {
    var (checked, tag) := ReadTag(sv, req.resource, req.context);
    ReadKeeps(sv, SubjectOf(req.resource));
    var accepted := req.Modify? && (req.ifMatch.None? || req.ifMatch == Some(tag));
    var saved := if accepted then SaveAll(checked, req.writes) else checked;
    if req.Modify? { SaveAllKeeps(checked, req.writes); }
    if saved != checked { KeepsTransitive(sv, checked, saved); }
    ReadKeeps(saved, SubjectOf(req.resource));
    KeepsTransitive(sv, saved, Handle(site, sv, req).0);
  }

  /** The tag of a response is for the context of its request, and a write is refused only
      when its tag is not current. */
  ghost predicate Fair<B>(sv: Server, req: Request, response: Response<B>)
  {
    && response.etag.context == req.context
    && (req.Modify? && req.ifMatch.Some? && req.ifMatch.value.version < sv.store.next && !response.Modified? ==>
          !IsCurrentTag(sv, req.resource, req.context, req.ifMatch.value))
  }

  ghost predicate Conservative<B>(h: Handler<B>)
  {
    forall sv: Server, req: Request :: Valid(sv.store) ==> Keeps(sv, h(sv, req).0) && Fair(sv, req, h(sv, req).1)
  }

  lemma ServingIsConservative<B>(site: Site<B>)
    ensures Conservative(Serving(site))
  {
    forall sv: Server, req: Request | Valid(sv.store)
      ensures Keeps(sv, Serving(site)(sv, req).0) && Fair(sv, req, Serving(site)(sv, req).1)
    {
      HandleKeeps(site, sv, req);
      ReadIsStable(sv.store, SubjectOf(req.resource));
    }
  }

  lemma {:induction false} RunKeeps<B>(h: Handler<B>, sv: Server, reqs: seq<Request>, others: seq<seq<Event>>, i: nat,
                                       j: nat)
    requires Conservative(h) && i <= j < |reqs| == |others|
    requires Valid(Before(h, sv, reqs, others, i).store)
    requires forall k :: i <= k <= j ==> NothingExpires(others[k])
    ensures Keeps(Before(h, sv, reqs, others, i), Reached(h, sv, reqs, others, j))
  {
    var a, b := Before(h, sv, reqs, others, i), Before(h, sv, reqs, others, j);
    if i < j {
      var mid := Reached(h, sv, reqs, others, j - 1);
      RunKeeps(h, sv, reqs, others, i, j - 1);
      KeepsTransitive(a, mid, b);
    }
    HappenAllKeeps(b, others[j]);
    if i < j { KeepsTransitive(a, b, Reached(h, sv, reqs, others, j)); }
  }

  /** In any sequence of requests, with writes and reads of others in between but nothing lost
      from the version store: a write that carries the tag of an earlier response about the
      same row, in the same context, is accepted if and only if no write touched the row since
      that response was made. */
  lemma AcceptedIffUnchanged<B>(site: Site<B>, sv: Server, reqs: seq<Request>, others: seq<seq<Event>>, i: nat, j: nat)
    requires Valid(sv.store) && i < j < |reqs| == |others|
    requires forall k :: i < k <= j ==> NothingExpires(others[k])
    requires reqs[j].Modify? && reqs[j].resource.row == reqs[i].resource.row && reqs[j].context == reqs[i].context
    requires reqs[j].ifMatch == Some(ResponseAt(Serving(site), sv, reqs, others, i).etag)
    ensures ResponseAt(Serving(site), sv, reqs, others, j).Modified? <==>
              (History(Reached(Serving(site), sv, reqs, others, j).log, reqs[j].resource) ==
               History(Before(Serving(site), sv, reqs, others, i + 1).log, reqs[j].resource))
  {
    ServingIsTrustworthy(site);
    ServingIsConservative(site);
    if ResponseAt(Serving(site), sv, reqs, others, j).Modified? {
      AcceptedMeansUnchanged(Serving(site), sv, reqs, others, i, j);
    } else {
      RefusedMeansChanged(Serving(site), sv, reqs, others, i, j);
    }
  }

  lemma RefusedMeansChanged<B>(h: Handler<B>, sv: Server, reqs: seq<Request>, others: seq<seq<Event>>, i: nat, j: nat)
    requires Trustworthy(h) && Conservative(h)
    requires Valid(sv.store) && i < j < |reqs| == |others|
    requires forall k :: i < k <= j ==> NothingExpires(others[k])
    requires reqs[j].Modify? && reqs[j].resource.row == reqs[i].resource.row && reqs[j].context == reqs[i].context
    requires reqs[j].ifMatch == Some(ResponseAt(h, sv, reqs, others, i).etag)
    requires !ResponseAt(h, sv, reqs, others, j).Modified?
    ensures History(Reached(h, sv, reqs, others, j).log, reqs[j].resource)
         != History(Before(h, sv, reqs, others, i + 1).log, reqs[j].resource)
  {
    TagWasCurrent(h, sv, reqs, others, i);
    TagIsStale(h, sv, reqs, others, i, j);
    RunKeeps(h, sv, reqs, others, i + 1, j);
    assert KeptUnlessWritten(Before(h, sv, reqs, others, i + 1), Reached(h, sv, reqs, others, j), reqs[j].resource);
  }

  lemma TagWasCurrent<B>(h: Handler<B>, sv: Server, reqs: seq<Request>, others: seq<seq<Event>>, i: nat)
    requires Trustworthy(h) && Conservative(h) && Valid(sv.store) && i < |reqs| == |others|
    ensures Valid(Before(h, sv, reqs, others, i + 1).store)
    ensures ResponseAt(h, sv, reqs, others, i).etag.version < Before(h, sv, reqs, others, i + 1).store.next
    ensures IsCurrentTag(Before(h, sv, reqs, others, i + 1), reqs[i].resource, reqs[i].context,
              ResponseAt(h, sv, reqs, others, i).etag)
  {
    var read := Reached(h, sv, reqs, others, i);
    RunReaches(h, sv, reqs, others, 0, i);
    assert Follows(read, h(read, reqs[i]).0);
    assert Truthful(read, reqs[i], h(read, reqs[i]).0, h(read, reqs[i]).1);
    assert Fair(read, reqs[i], h(read, reqs[i]).1);
  }

  lemma TagIsStale<B>(h: Handler<B>, sv: Server, reqs: seq<Request>, others: seq<seq<Event>>, i: nat, j: nat)
    requires Trustworthy(h) && Conservative(h) && Valid(sv.store) && i < j < |reqs| == |others|
    requires reqs[j].Modify? && reqs[j].ifMatch == Some(ResponseAt(h, sv, reqs, others, i).etag)
    requires !ResponseAt(h, sv, reqs, others, j).Modified?
    ensures !IsCurrentTag(Reached(h, sv, reqs, others, j), reqs[j].resource, reqs[j].context,
              ResponseAt(h, sv, reqs, others, i).etag)
  {
    var write := Reached(h, sv, reqs, others, j);
    TagWasCurrent(h, sv, reqs, others, i);
    RunReaches(h, sv, reqs, others, i + 1, j);
    assert Fair(write, reqs[j], h(write, reqs[j]).1);
  }
}
