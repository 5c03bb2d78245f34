/** The text of an etag (get_etag_value in vstutils/api/base.py): the version of the model and
    what else the response depends on, hashed when that is about a user or a session. */
module EtagValue {
  import opened Common
  import Strings = Text

  datatype Dependency = Lang | User | Session

  /** What a request says about its sender; the session is missing when there is none. */
  datatype Visitor = Visitor(language: string, userId: string, session: Option<string>)

  function Part(used: bool, value: string): string
  {
    if used then "_" + value else ""
  }

  function SessionPart(dependencies: set<Dependency>, v: Visitor): string
  {
    Part(Session in dependencies && v.session.Some?, if v.session.Some? then v.session.value else "")
  }

  function Begin(version: string, dependencies: set<Dependency>, v: Visitor): string
  {
    version + Part(Lang in dependencies, v.language)
  }

  function Text(version: string, dependencies: set<Dependency>, v: Visitor): string
  {
    Begin(version, dependencies, v) + Part(User in dependencies, v.userId) + SessionPart(dependencies, v)
  }

  predicate Hashed(dependencies: set<Dependency>, v: Visitor)
  {
    User in dependencies || (Session in dependencies && v.session.Some?)
  }

  /** What etags are asked for: a model with versions (the version its callback answers for the
      row), a model without, or a collection of models. */
  datatype Source =
    | Versioned(version: string, dependencies: set<Dependency>)
    | Unversioned(name: string)
    | Collection(models: seq<Source>)

  /** blake2s with eight and with four bytes, as hexadecimal digits. */
  datatype Digests = Digests(long: string -> string, short: string -> string)

  /** The text that is hashed when a response is about a user or session. */
  function FullText(version: string, dependencies: set<Dependency>, v: Visitor, release: string): string
  {
    Text(version, dependencies, v) + "_" + release
  }

  function EtagOf(d: Digests, source: Source, v: Visitor, release: string): string
  {
    match source
    case Versioned(version, dependencies) =>
      if Hashed(dependencies, v) then d.long(FullText(version, dependencies, v, release))
      else Text(version, dependencies, v)
    case Unversioned(name) => name + "_" + d.short(release)
    case Collection(models) =>
      d.long(Joined(seq(|models|, i requires 0 <= i < |models| => EtagOf(d, models[i], v, release))))
  }

  function Joined(parts: seq<string>): string
  {
    if parts == [] then "" else Strings.Join(parts, '_')
  }

  method GetEtagValue(d: Digests, source: Source, v: Visitor, release: string) returns (etag: string)
    ensures etag == EtagOf(d, source, v, release)
    decreases source
  {
    var shouldHash := false;
    match source {
      case Collection(models) =>
        var parts := [];
        for i := 0 to |models|
          invariant |parts| == i && forall k :: 0 <= k < i ==> parts[k] == EtagOf(d, models[k], v, release)
        {
          var part := GetEtagValue(d, models[i], v, release);
          parts := parts + [part];
        }
        assert parts == seq(|models|, i requires 0 <= i < |models| => EtagOf(d, models[i], v, release));
        return d.long(Joined(parts));
      case Versioned(version, dependencies) =>
        etag, shouldHash := VersionText(version, dependencies, v);
      case Unversioned(name) =>
        etag := name + "_" + d.short(release);
    }
    if shouldHash {
      etag := d.long(etag + "_" + release);
    }
  }

  /** The text of a version, built piece by piece. */
  method VersionText(version: string, dependencies: set<Dependency>, v: Visitor)
    returns (etag: string, shouldHash: bool)
    ensures etag == Text(version, dependencies, v)
    ensures shouldHash == Hashed(dependencies, v)
  {
    shouldHash := false;
    etag := version;
    if Lang in dependencies {
      etag := etag + "_" + v.language;
    }
    assert etag == version + Part(Lang in dependencies, v.language);
    if User in dependencies {
      etag := etag + "_" + v.userId;
      shouldHash := true;
    }
    assert etag == version + Part(Lang in dependencies, v.language) + Part(User in dependencies, v.userId);
    if Session in dependencies && v.session.Some? {
      etag := etag + "_" + v.session.value;
      shouldHash := true;
    }
  }

  /** Versions are uuids, user ids are numbers, session keys letters and digits. */
  predicate Plain(s: string)
  {
    '_' !in s
  }

  lemma SameEnds(a: string, x: string, b: string, y: string)
    requires Plain(x) && Plain(y)
    ensures a + "_" + x == b + "_" + y <==> a == b && x == y
  {
    var s, t := a + "_" + x, b + "_" + y;
    assert s[|a|] == '_' && t[|b|] == '_';
    assert forall k :: |a| < k < |s| ==> s[k] == x[k - |a| - 1];
    assert forall k :: |b| < k < |t| ==> t[k] == y[k - |b| - 1];
    if s == t {
      assert s[..|a|] == a && t[..|b|] == b && s[|a| + 1..] == x && t[|b| + 1..] == y;
    }
  }

  lemma SameBeginnings(a: string, x: string, b: string, y: string)
    requires Plain(a) && Plain(b)
    ensures a + "_" + x == b + "_" + y <==> a == b && x == y
  {
    var s, t := a + "_" + x, b + "_" + y;
    assert s[|a|] == '_' && t[|b|] == '_';
    assert forall k :: 0 <= k < |a| ==> s[k] == a[k];
    assert forall k :: 0 <= k < |b| ==> t[k] == b[k];
    if s == t {
      assert s[..|a|] == a && t[..|b|] == b && s[|a| + 1..] == x && t[|b| + 1..] == y;
    }
  }

  lemma PartEnds(a: string, b: string, used: bool, x: string, y: string)
    requires Plain(x) && Plain(y)
    ensures a + Part(used, x) == b + Part(used, y) <==> a == b && (used ==> x == y)
  {
    if used {
      SameEnds(a, x, b, y);
      assert a + Part(used, x) == a + "_" + x && b + Part(used, y) == b + "_" + y;
    } else {
      assert a + Part(used, x) == a && b + Part(used, y) == b;
    }
  }

  /** The senders agree on everything the response depends on. */
  predicate Agree(dependencies: set<Dependency>, v1: Visitor, v2: Visitor)
  {
    && (Lang in dependencies ==> v1.language == v2.language)
    && (User in dependencies ==> v1.userId == v2.userId)
    && (Session in dependencies ==> v1.session == v2.session)
  }

  /** One sender has no session; the other's session key is read as the user, and its user as
      the end of the language. */
  predicate Clash(dependencies: set<Dependency>, v1: Visitor, v2: Visitor)
  {
    && Lang in dependencies && User in dependencies && Session in dependencies
    && v1.session.None? && v2.session.Some?
    && v1.language == v2.language + "_" + v2.userId && v1.userId == v2.session.value
  }

  predicate IsPlain(version: string, v: Visitor)
  {
    Plain(version) && Plain(v.userId) && (v.session.Some? ==> Plain(v.session.value))
  }

  /** Texts with a session, or texts without one, are equal exactly when the versions are and
      the senders agree. */
  lemma SameKindOfSession(dependencies: set<Dependency>, version1: string, v1: Visitor, version2: string, v2: Visitor)
    requires IsPlain(version1, v1) && IsPlain(version2, v2)
    requires Session in dependencies ==> v1.session.Some? == v2.session.Some?
    ensures Text(version1, dependencies, v1) == Text(version2, dependencies, v2) <==>
              version1 == version2 && Agree(dependencies, v1, v2)
  {
    var begin1, begin2 := Begin(version1, dependencies, v1), Begin(version2, dependencies, v2);
    var middle1 := begin1 + Part(User in dependencies, v1.userId);
    var middle2 := begin2 + Part(User in dependencies, v2.userId);
    if Session in dependencies && v1.session.Some? {
      PartEnds(middle1, middle2, true, v1.session.value, v2.session.value);
    } else {
      assert middle1 + "" == middle1 && middle2 + "" == middle2;
    }
    PartEnds(begin1, begin2, User in dependencies, v1.userId, v2.userId);
    SameBegin(dependencies, version1, v1, version2, v2);
  }

  lemma SameBegin(dependencies: set<Dependency>, version1: string, v1: Visitor, version2: string, v2: Visitor)
    requires Plain(version1) && Plain(version2)
    ensures Begin(version1, dependencies, v1) == Begin(version2, dependencies, v2) <==>
              version1 == version2 && (Lang in dependencies ==> v1.language == v2.language)
  {
    if Lang in dependencies {
      SameBeginnings(version1, v1.language, version2, v2.language);
      assert Begin(version1, dependencies, v1) == version1 + "_" + v1.language;
      assert Begin(version2, dependencies, v2) == version2 + "_" + v2.language;
    } else {
      assert Begin(version1, dependencies, v1) == version1 && Begin(version2, dependencies, v2) == version2;
    }
  }

  /** A text without and a text with a session are equal exactly when they clash. */
  lemma OneWithoutSession(dependencies: set<Dependency>, version1: string, v1: Visitor, version2: string, v2: Visitor)
    requires IsPlain(version1, v1) && IsPlain(version2, v2)
    requires User in dependencies && Session in dependencies && v1.session.None? && v2.session.Some?
    ensures Text(version1, dependencies, v1) == Text(version2, dependencies, v2) <==>
              version1 == version2 && Clash(dependencies, v1, v2)
  {
    var begin1, begin2 := Begin(version1, dependencies, v1), Begin(version2, dependencies, v2);
    assert Text(version1, dependencies, v1) == begin1 + "_" + v1.userId;
    assert Text(version2, dependencies, v2) == begin2 + "_" + v2.userId + "_" + v2.session.value;
    SameEnds(begin1, v1.userId, begin2 + "_" + v2.userId, v2.session.value);
    if Lang in dependencies {
      SameBeginnings(version1, v1.language, version2, v2.language + "_" + v2.userId);
      assert begin1 == version1 + "_" + v1.language;
      assert begin2 + "_" + v2.userId == version2 + "_" + (v2.language + "_" + v2.userId);
    } else {
      assert begin1 == version1;
      assert (begin2 + "_" + v2.userId)[|begin2|] == '_';
    }
  }

  /** Two texts have different digests. */
  predicate NoCollision(d: Digests, text1: string, text2: string)
  {
    text1 != text2 ==> d.long(text1) != d.long(text2)
  }

  /** Two etags of one release for the same dependencies, hashed or not, are equal exactly when
      the versions are and the senders agree or clash; given that versions are longer than
      digests and the two texts do not have the same digest. */
  lemma EtagsEqualIff(d: Digests, dependencies: set<Dependency>, version1: string, v1: Visitor, version2: string,
                      v2: Visitor, release: string)
    requires IsPlain(version1, v1) && IsPlain(version2, v2) && |version1| > 16 && |version2| > 16
    requires forall s :: |d.long(s)| == 16
    requires NoCollision(d, FullText(version1, dependencies, v1, release),
                            FullText(version2, dependencies, v2, release))
    ensures EtagOf(d, Versioned(version1, dependencies), v1, release) ==
              EtagOf(d, Versioned(version2, dependencies), v2, release) <==>
              && version1 == version2
              && (Agree(dependencies, v1, v2) || Clash(dependencies, v1, v2) || Clash(dependencies, v2, v1))
  {
    SameTextSameDigest(d, Text(version1, dependencies, v1), Text(version2, dependencies, v2), release);
    assert |Text(version1, dependencies, v1)| > 16 && |Text(version2, dependencies, v2)| > 16;
    if Session in dependencies && v1.session.Some? != v2.session.Some? {
      if User in dependencies {
        if v1.session.None? {
          OneWithoutSession(dependencies, version1, v1, version2, v2);
        } else {
          OneWithoutSession(dependencies, version2, v2, version1, v1);
        }
      }
    } else {
      SameKindOfSession(dependencies, version1, v1, version2, v2);
    }
  }

  lemma SameTextSameDigest(d: Digests, text1: string, text2: string, release: string)
    requires NoCollision(d, text1 + "_" + release, text2 + "_" + release)
    ensures d.long(text1 + "_" + release) == d.long(text2 + "_" + release) <==> text1 == text2
  {
    var full1, full2 := text1 + "_" + release, text2 + "_" + release;
    if full1 == full2 {
      assert |text1| == |text2|;
      assert full1[..|text1|] == text1 && full2[..|text2|] == text2;
    }
  }

  /** Without users and sessions the etag is the plain text, and with a user or a session it is the
      digest of it and the release; a model without versions is told apart by its name and the
      release, and a collection is the digest of its members' etags. */
  lemma WhatIsHashed(d: Digests, version: string, v: Visitor, release: string, name: string)
    ensures EtagOf(d, Versioned(version, {}), v, release) == version
    ensures EtagOf(d, Versioned(version, {Lang}), v, release) == version + "_" + v.language
    ensures EtagOf(d, Versioned(version, {User}), v, release) == d.long(version + "_" + v.userId + "_" + release)
    ensures EtagOf(d, Versioned(version, {Session}), v, release) ==
              if v.session.Some? then d.long(version + "_" + v.session.value + "_" + release) else version
    ensures EtagOf(d, Unversioned(name), v, release) == name + "_" + d.short(release)
    ensures EtagOf(d, Collection([]), v, release) == d.long("")
    ensures EtagOf(d, Collection([Unversioned(name), Versioned(version, {})]), v, release) ==
              d.long(name + "_" + d.short(release) + "_" + version)
  {
    assert Text(version, {}, v) == version && Text(version, {Lang}, v) == version + "_" + v.language;
    assert Text(version, {User}, v) == version + "_" + v.userId;
    if v.session.Some? {
      assert Text(version, {Session}, v) == version + "_" + v.session.value;
    } else {
      assert Text(version, {Session}, v) == version;
    }
    var models := [Unversioned(name), Versioned(version, {})];
    var parts := [EtagOf(d, models[0], v, release), EtagOf(d, models[1], v, release)];
    assert seq(|models|, i requires 0 <= i < |models| => EtagOf(d, models[i], v, release)) == parts;
    assert parts[1..] == [parts[1]];
    assert Strings.Join(parts, '_') == name + "_" + d.short(release) + "_" + version;
  }

  /** A new release changes every hashed etag, and those of models without versions. */
  lemma NewReleaseNewEtag(d: Digests, dependencies: set<Dependency>, version: string, v: Visitor, name: string,
                          release1: string, release2: string)
    requires release1 != release2
    requires NoCollision(d, FullText(version, dependencies, v, release1), FullText(version, dependencies, v, release2))
    ensures Hashed(dependencies, v) ==>
              EtagOf(d, Versioned(version, dependencies), v, release1) !=
                EtagOf(d, Versioned(version, dependencies), v, release2)
    ensures d.short(release1) != d.short(release2) ==>
              EtagOf(d, Unversioned(name), v, release1) != EtagOf(d, Unversioned(name), v, release2)
  {
    SamePrefix(Text(version, dependencies, v) + "_", release1, release2);
    SamePrefix(name + "_", d.short(release1), d.short(release2));
  }

  lemma SamePrefix(prefix: string, a: string, b: string)
    ensures prefix + a == prefix + b <==> a == b
  {
    if prefix + a == prefix + b {
      assert (prefix + a)[|prefix|..] == a && (prefix + b)[|prefix|..] == b;
    }
  }

  /** The etags of two collections are equal exactly when the members' etags are, one by one, given
      that these have the same lengths and the joined texts no common digest. */
  lemma CollectionsEqualIff(d: Digests, models1: seq<Source>, v1: Visitor, models2: seq<Source>, v2: Visitor,
                            release: string)
    requires |models1| == |models2| > 0
    requires forall i :: 0 <= i < |models1| ==>
               |EtagOf(d, models1[i], v1, release)| == |EtagOf(d, models2[i], v2, release)|
    requires NoCollision(d, Joined(Members(d, models1, v1, release)), Joined(Members(d, models2, v2, release)))
    ensures EtagOf(d, Collection(models1), v1, release) == EtagOf(d, Collection(models2), v2, release) <==>
              forall i :: 0 <= i < |models1| ==>
                EtagOf(d, models1[i], v1, release) == EtagOf(d, models2[i], v2, release)
  {
    var a, b := Members(d, models1, v1, release), Members(d, models2, v2, release);
    SameLengthsJoin(a, b);
    if a == b {
      forall i | 0 <= i < |models1| ensures EtagOf(d, models1[i], v1, release) == EtagOf(d, models2[i], v2, release) {
        assert a[i] == b[i];
      }
    }
  }

  function Members(d: Digests, models: seq<Source>, v: Visitor, release: string): (r: seq<string>)
    ensures |r| == |models|
  {
    seq(|models|, i requires 0 <= i < |models| => EtagOf(d, models[i], v, release))
  }

  lemma {:induction false} SameLengthsJoin(a: seq<string>, b: seq<string>)
    requires |a| == |b| > 0 && forall i :: 0 <= i < |a| ==> |a[i]| == |b[i]|
    ensures Strings.Join(a, '_') == Strings.Join(b, '_') <==> a == b
    decreases |a|
  {
    if |a| == 1 {
      assert a == [a[0]] && b == [b[0]];
    } else {
      SameLengthsJoin(a[1..], b[1..]);
      var x, y := Strings.Join(a[1..], '_'), Strings.Join(b[1..], '_');
      var s, t := a[0] + ['_'] + x, b[0] + ['_'] + y;
      if s == t {
        assert s[..|a[0]|] == a[0] && t[..|b[0]|] == b[0];
        assert s[|a[0]| + 1..] == x && t[|b[0]| + 1..] == y;
        assert a == [a[0]] + a[1..] && b == [b[0]] + b[1..];
      }
    }
  }

  /** So when no user id is the key of a session, the etag is the version and the context. */
  lemma EtagIsVersionAndContext(d: Digests, dependencies: set<Dependency>, version1: string, v1: Visitor,
                                version2: string, v2: Visitor, release: string)
    requires IsPlain(version1, v1) && IsPlain(version2, v2) && |version1| > 16 && |version2| > 16
    requires v1.session != Some(v2.userId) && v2.session != Some(v1.userId)
    requires forall s :: |d.long(s)| == 16
    requires NoCollision(d, FullText(version1, dependencies, v1, release),
                            FullText(version2, dependencies, v2, release))
    ensures EtagOf(d, Versioned(version1, dependencies), v1, release) ==
              EtagOf(d, Versioned(version2, dependencies), v2, release) <==>
              version1 == version2 && Agree(dependencies, v1, v2)
  {
    EtagsEqualIff(d, dependencies, version1, v1, version2, v2, release);
  }

  /** Two senders that get the same etag without agreeing on anything: the first has no session
      and an id like the key of the second's. */
  lemma ClashExample(d: Digests, version: string, release: string, key: string, user: string)
    ensures var (v1, v2) := (Visitor("en_" + user, key, None), Visitor("en", user, Some(key)));
            var source := Versioned(version, {Lang, User, Session});
            && !Agree(source.dependencies, v1, v2)
            && EtagOf(d, source, v1, release) == EtagOf(d, source, v2, release)
  {
    var v1, v2 := Visitor("en_" + user, key, None), Visitor("en", user, Some(key));
    var all := {Lang, User, Session};
    assert Text(version, all, v1) == version + "_" + ("en_" + user) + "_" + key;
    assert Text(version, all, v2) == version + "_" + "en" + "_" + user + "_" + key;
    assert "_" + ("en_" + user) == "_" + "en" + "_" + user;
    assert Text(version, all, v1) == Text(version, all, v2);
    assert v1.language != v2.language by { assert |v1.language| > |v2.language|; }
  }
}
