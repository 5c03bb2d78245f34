/** How a conditional header is compared with the server's etag (check_request_etag in
    vstutils/utils.py) and what follows (check_etag in vstutils/api/base.py). */
module EtagHeader {
  import opened Common

  datatype Failure = IndexError | NotModified | PreconditionFailed

  function Quoted(value: string): string
  {
    "\"" + value + "\""
  }

  predicate IsWeak(header: string)
  {
    |header| >= 2 && header[..2] in {"W/", "w/"}
  }

  predicate IsBareMark(header: string)
  {
    header == "W/" || header == "w/"
  }

  /** The header without a weakness mark. */
  function Unmarked(header: string): string
  {
    if IsWeak(header) then header[2..] else header
  }

  predicate IsQuoted(s: string)
  {
    s != "" && s[0] == '"'
  }

  /** The header names the value: weak or strong, and with quotes on both, on one or on none. */
  predicate Names(header: string, value: string)
  {
    SameButQuotes(Unmarked(header), value)
  }

  predicate SameButQuotes(h: string, value: string)
  {
    h == value || (!IsQuoted(value) && h == Quoted(value)) || (!IsQuoted(h) && Quoted(h) == value)
  }

  /** The answer is None when there is no condition, else whether header and etag agree
      (equal) or differ (!equal).  A header of only "W/", or an empty etag, is an index error. */
  method CheckRequestEtag(requestHeader: Option<string>, etagValue: string, equal: bool)
    returns (r: Result<Option<bool>, Failure>)
    ensures requestHeader == None || requestHeader == Some("") <==> r == Ok(None)
    ensures r.Err? <==>
              && requestHeader.Some? && requestHeader.value != ""
              && (IsBareMark(requestHeader.value) || etagValue == "")
    ensures r.Err? ==> r.error == IndexError
    ensures r.Ok? && r.value.Some? ==> r.value.value == (Names(requestHeader.value, etagValue) == equal)
  {
    if requestHeader.None? || requestHeader.value == "" {
      return Ok(None);
    }
    var header := requestHeader.value;
    var etag := etagValue;
    OnlyBareMarks(header);
    if |header| >= 2 && header[..2] in {"W/", "w/"} {
      header := header[2..];
    }
    if header == "" {
      return Err(IndexError);
    }
    if header[0] != '"' {
      header := Quoted(header);
    }
    if etag == "" {
      return Err(IndexError);
    }
    if etag[0] != '"' {
      etag := Quoted(etag);
    }
    SameWhenQuoted(Unmarked(requestHeader.value), etagValue);
    r := Ok(Some(if equal then etag == header else etag != header));
  }

  /** A header that is empty without its mark is only the mark. */
  lemma OnlyBareMarks(header: string)
    requires header != ""
    ensures Unmarked(header) == "" <==> IsBareMark(header)
  {
    assert "W/"[..2] == "W/" && "w/"[..2] == "w/";
    if IsWeak(header) && header[2..] == "" { assert header == header[..2]; }
  }

  /** With quotes added where there are none. */
  function Canonical(s: string): string
  {
    if IsQuoted(s) then s else Quoted(s)
  }

  lemma SameWhenQuoted(h: string, value: string)
    ensures Canonical(h) == Canonical(value) <==> SameButQuotes(h, value)
  {
    assert Quoted(h)[1..|Quoted(h)| - 1] == h;
    assert Quoted(value)[1..|Quoted(value)| - 1] == value;
  }

  datatype Request = Request(verb: string, ifNoneMatch: Option<string>, ifMatch: Option<string>)

  /** matched is etag_match_methods of the view, when the view has it. */
  method CheckEtag(request: Request, matched: Option<set<string>>, etagValue: string) returns (r: Result<(), Failure>)
    ensures r == Err(NotModified) <==>
              request.verb in {"GET", "HEAD"} && Comparable(request.ifNoneMatch, etagValue)
              && Names(request.ifNoneMatch.value, etagValue)
    ensures r == Err(PreconditionFailed) <==>
              && request.verb !in {"GET", "HEAD"} && (matched.Some? ==> request.verb in matched.value)
              && Comparable(request.ifMatch, etagValue) && !Names(request.ifMatch.value, etagValue)
    ensures r == Err(IndexError) <==>
              || (request.verb in {"GET", "HEAD"} && Breaks(request.ifNoneMatch, etagValue))
              || (request.verb !in {"GET", "HEAD"} && (matched.Some? ==> request.verb in matched.value)
                  && Breaks(request.ifMatch, etagValue))
  {
    var shouldCheck, header, exception, equal := false, None, IndexError, true;
    if request.verb in {"GET", "HEAD"} {
      shouldCheck := true;
      exception := NotModified;
      header := request.ifNoneMatch;
    } else if matched.None? || request.verb in matched.value {
      shouldCheck := true;
      exception := PreconditionFailed;
      header := request.ifMatch;
      equal := false;
    }
    if !shouldCheck {
      return Ok(());
    }
    var m := CheckRequestEtag(header, etagValue, equal);
    if m.Err? {
      return Err(m.error);
    }
    assert m.value.Some? <==> Comparable(header, etagValue);
    if m.value == Some(true) {
      return Err(exception);
    }
    r := Ok(());
  }

  /** There is a condition, and comparing it is an index error. */
  predicate Breaks(header: Option<string>, etagValue: string)
  {
    header.Some? && header.value != "" && (header.value == "W/" || header.value == "w/" || etagValue == "")
  }

  /** The header and the etag can be compared. */
  predicate Comparable(header: Option<string>, etagValue: string)
  {
    header.Some? && header.value != "" && !IsBareMark(header.value) && etagValue != ""
  }

  /** A value the server makes: a version or hexadecimal digits, so neither quoted nor weak. */
  predicate IsOpaque(value: string)
  {
    !IsQuoted(value) && !IsWeak(value)
  }

  /** The tag a response carried names the current value exactly when it is that value; so
      comparing tags as values, as HttpCache does, is what the strings amount to.  A weak tag
      passes too, also in If-Match, where section 13.1.1 of RFC 9110 asks for the strong
      comparison, in which a weak tag equals nothing. */
  lemma OwnHeaderNames(sent: string, current: string)
    requires IsOpaque(sent) && IsOpaque(current)
    ensures Names(Quoted(sent), current) <==> sent == current
    ensures Names("W/" + Quoted(sent), current) <==> sent == current
    ensures Names("w/" + Quoted(sent), current) <==> sent == current
    ensures Names(sent, current) <==> sent == current
  {
    var q := Quoted(sent);
    assert ("W/" + q)[..2] == "W/" && ("W/" + q)[2..] == q;
    assert ("w/" + q)[..2] == "w/" && ("w/" + q)[2..] == q;
    assert q[0] == '"' && Quoted(current)[0] == '"';
    assert !IsWeak(q) by { assert q[..2][0] == '"'; }
    assert q[1..|q| - 1] == sent;
    assert Quoted(current)[1..|Quoted(current)| - 1] == current;
    assert IsQuoted(Quoted(current)) && IsQuoted(q);
  }
}
