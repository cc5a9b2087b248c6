/**
  What a composed request asks for: the operation its method and query name, and the bucket and key its host
  and path name, said of their text.
 */
module HttpTargets {
  import opened Wrappers
  import opened HttpHead
  import opened HttpMessages
  import opened HttpResolve

  // ---------------------------------------------------------------------------------------
  // Queries
  // ---------------------------------------------------------------------------------------

  /** One parameter: a name alone, or a name and a value. */
  datatype Param = Param(name: string, value: Option<string>)

  predicate PlainParam(p: Param) {
    p.name != "" && '&' !in p.name && '=' !in p.name && (p.value.Some? ==> '&' !in p.value.value)
  }

  function ParamText(p: Param): string {
    match p.value
    case None => p.name
    case Some(v) => p.name + "=" + v
  }

  function QueryText(ps: seq<Param>): string {
    if ps == [] then "" else if |ps| == 1 then ParamText(ps[0]) else ParamText(ps[0]) + "&" + QueryText(ps[1..])
  }

  /** The parameters of a query, taken apart. */
  function Read(ps: seq<Param>): seq<(string, string)> {
    if ps == [] then [] else [(ps[0].name, ps[0].value.GetOr(""))] + Read(ps[1..])
  }

  lemma OneParam(p: Param)
    requires PlainParam(p)
    ensures ParamText(p) != "" && '&' !in ParamText(p)
    ensures SplitOnce(ParamText(p), '=').GetOr((ParamText(p), "")) == (p.name, p.value.GetOr(""))
  {
    if p.value.Some? {
      var s := ParamText(p);
      assert s[|p.name|] == '=' && s[..|p.name|] == p.name && s[|p.name| + 1..] == p.value.value;
      IndexOfIs(s, '=', |p.name|);
    }
  }

  lemma PairFirst(p: Param, more: seq<string>)
    requires PlainParam(p)
    ensures PairsOf([ParamText(p)] + more) == [(p.name, p.value.GetOr(""))] + PairsOf(more)
  {
    hide ParamText, SplitOnce;
    OneParam(p);
    assert ([ParamText(p)] + more)[1..] == more;
  }

  lemma SplitAnd(word: string, rest: string)
    requires '&' !in word
    ensures Split(word + "&" + rest, '&') == [word] + Split(rest, '&') && Split(word, '&') == [word]
  {
    var s := word + "&" + rest;
    assert s[|word|] == '&' && s[..|word|] == word && s[|word| + 1..] == rest;
    IndexOfIs(s, '&', |word|);
  }

  lemma {:induction false} QueryReadsBack(ps: seq<Param>)
    requires forall i :: 0 <= i < |ps| ==> PlainParam(ps[i])
    ensures Pairs(QueryText(ps)) == Read(ps)
  {
    hide PairsOf, Split, ParamText;
    if ps == [] {
      EmptyQuery();
    } else {
      OneParam(ps[0]);
      var rest := ps[1..];
      SplitAnd(ParamText(ps[0]), QueryText(rest));
      if |ps| == 1 {
        assert rest == [];
        PairFirst(ps[0], []);
        assert [ParamText(ps[0])] + [] == [ParamText(ps[0])];
        EmptyQuery();
      } else {
        QueryReadsBack(rest);
        PairFirst(ps[0], Split(QueryText(rest), '&'));
      }
    }
  }

  lemma EmptyQuery()
    ensures Pairs("") == [] && PairsOf([]) == []
  {
    assert Split("", '&') == [""];
  }

  predicate Given(ps: seq<Param>, name: string) { exists i :: 0 <= i < |ps| && ps[i].name == name }

  /** The first parameter called `name` has the value `v`. */
  predicate FirstGiven(ps: seq<Param>, name: string, v: string) {
    exists i :: 0 <= i < |ps| && ps[i].name == name && ps[i].value.GetOr("") == v && forall j :: 0 <= j < i ==> ps[j].name != name
  }

  lemma {:induction false} ReadAt(ps: seq<Param>)
    ensures |Read(ps)| == |ps| && forall i :: 0 <= i < |ps| ==> Read(ps)[i] == (ps[i].name, ps[i].value.GetOr(""))
  {
    if ps != [] {
      ReadAt(ps[1..]);
    }
  }

  lemma FirstGivenNext(ps: seq<Param>, name: string, v: string)
    requires ps != []
    ensures FirstGiven(ps, name, v)
       <==> if ps[0].name == name then ps[0].value.GetOr("") == v else FirstGiven(ps[1..], name, v)
  {
    var rest := ps[1..];
    assert forall j :: 0 <= j < |rest| ==> rest[j] == ps[j + 1];
    if FirstGiven(ps, name, v) && ps[0].name != name {
      var i :| 0 <= i < |ps| && ps[i].name == name && ps[i].value.GetOr("") == v && forall j :: 0 <= j < i ==> ps[j].name != name;
      assert rest[i - 1] == ps[i];
    }
    if FirstGiven(rest, name, v) && ps[0].name != name {
      var i :| 0 <= i < |rest| && rest[i].name == name && rest[i].value.GetOr("") == v && forall j :: 0 <= j < i ==> rest[j].name != name;
      assert ps[i + 1] == rest[i];
      forall j | 0 <= j < i + 1 ensures ps[j].name != name {
        assert j > 0 ==> ps[j] == rest[j - 1];
      }
    }
  }

  lemma {:induction false} FirstValueIs(ps: seq<Param>, name: string, v: string)
    ensures FirstValue(Read(ps), name) == Some(v) <==> FirstGiven(ps, name, v)
  {
    if ps != [] {
      FirstGivenNext(ps, name, v);
      hide FirstGiven;
      FirstValueIs(ps[1..], name, v);
      assert Read(ps)[1..] == Read(ps[1..]);
    }
  }

  lemma HasIs(ps: seq<Param>, name: string)
    requires forall i :: 0 <= i < |ps| ==> PlainParam(ps[i])
    ensures Has(QueryText(ps), name) <==> Given(ps, name)
  {
    QueryReadsBack(ps);
    ReadAt(ps);
    hide Pairs, QueryText;
    assert Has(QueryText(ps), name) <==> exists i :: 0 <= i < |Read(ps)| && Read(ps)[i].0 == name;
  }

  // ---------------------------------------------------------------------------------------
  // Operations
  // ---------------------------------------------------------------------------------------

  /** What a GET asks for; `named` when the request names a key. */
  predicate GetAsks(named: bool, ps: seq<Param>, op: S3Op) {
    && (Given(ps, "session") ==> op == CreateSession)
    && (!Given(ps, "session") && FirstGiven(ps, "list-type", "2") ==> op == ListObjectsV2)
    && (!Given(ps, "session") && !FirstGiven(ps, "list-type", "2") && !named ==> op == ListObjects)
    && (!Given(ps, "session") && !FirstGiven(ps, "list-type", "2") && named ==> op == GetObject)
  }

  predicate HeadAsks(named: bool, op: S3Op) { op == if named then HeadObject else Unknown }

  predicate PutAsks(named: bool, ps: seq<Param>, op: S3Op) {
    && (Given(ps, "partNumber") && Given(ps, "uploadId") ==> op == UploadPart)
    && (!(Given(ps, "partNumber") && Given(ps, "uploadId")) ==> op == if named then PutObject else Unknown)
  }

  predicate PostAsks(ps: seq<Param>, op: S3Op) {
    && (Given(ps, "delete") ==> op == DeleteObjects)
    && (!Given(ps, "delete") && Given(ps, "uploads") ==> op == CreateMultipartUpload)
    && (!Given(ps, "delete") && !Given(ps, "uploads") && Given(ps, "uploadId") ==> op == CompleteMultipartUpload)
    && (!Given(ps, "delete") && !Given(ps, "uploads") && !Given(ps, "uploadId") ==> op == Unknown)
  }

  predicate DeleteAsks(named: bool, ps: seq<Param>, op: S3Op) {
    && (Given(ps, "uploadId") ==> op == AbortMultipartUpload)
    && (!Given(ps, "uploadId") ==> op == if named then DeleteObject else Unknown)
  }

  /** The operation each method and query stands for. */
  predicate Asks(verb: string, named: bool, ps: seq<Param>, op: S3Op) {
    if verb == "GET" then GetAsks(named, ps, op)
    else if verb == "HEAD" then HeadAsks(named, op)
    else if verb == "PUT" then PutAsks(named, ps, op)
    else if verb == "POST" then PostAsks(ps, op)
    else if verb == "DELETE" then DeleteAsks(named, ps, op)
    else op == Unknown
  }

  lemma GetOperation(path: string, ps: seq<Param>)
    requires forall i :: 0 <= i < |ps| ==> PlainParam(ps[i])
    ensures GetAsks(|path| > 1, ps, Classify("GET", path, QueryText(ps)))
  {
    hide Given, FirstGiven, Has, Pairs, QueryText, FirstValue, PlainParam;
    HasIs(ps, "session");
    QueryReadsBack(ps);
    FirstValueIs(ps, "list-type", "2");
  }

  lemma PutOperation(path: string, ps: seq<Param>)
    requires forall i :: 0 <= i < |ps| ==> PlainParam(ps[i])
    ensures PutAsks(|path| > 1, ps, Classify("PUT", path, QueryText(ps)))
  {
    hide Given, FirstGiven, Has, Pairs, QueryText, FirstValue, PlainParam;
    HasIs(ps, "partNumber");
    HasIs(ps, "uploadId");
  }

  lemma PostOperation(path: string, ps: seq<Param>)
    requires forall i :: 0 <= i < |ps| ==> PlainParam(ps[i])
    ensures PostAsks(ps, Classify("POST", path, QueryText(ps)))
  {
    hide Given, FirstGiven, Has, Pairs, QueryText, FirstValue, PlainParam;
    HasIs(ps, "delete");
    HasIs(ps, "uploads");
    HasIs(ps, "uploadId");
  }

  lemma DeleteOperation(path: string, ps: seq<Param>)
    requires forall i :: 0 <= i < |ps| ==> PlainParam(ps[i])
    ensures DeleteAsks(|path| > 1, ps, Classify("DELETE", path, QueryText(ps)))
  {
    hide Given, FirstGiven, Has, Pairs, QueryText, FirstValue, PlainParam;
    HasIs(ps, "uploadId");
  }

  lemma OtherOperation(verb: string, path: string, ps: seq<Param>)
    ensures HeadAsks(|path| > 1, Classify("HEAD", path, QueryText(ps)))
    ensures verb !in ["GET", "HEAD", "PUT", "POST", "DELETE"] ==> Classify(verb, path, QueryText(ps)) == Unknown
  {
    hide Has, Pairs, QueryText, FirstValue;
  }

  /** The operation read is the one the method and the query's parameters stand for. */
  lemma OperationOf(verb: string, path: string, ps: seq<Param>)
    requires forall i :: 0 <= i < |ps| ==> PlainParam(ps[i])
    ensures Asks(verb, |path| > 1, ps, Classify(verb, path, QueryText(ps)))
  {
    hide Classify, GetAsks, HeadAsks, PutAsks, PostAsks, DeleteAsks, PlainParam, QueryText;
    GetOperation(path, ps);
    PutOperation(path, ps);
    PostOperation(path, ps);
    DeleteOperation(path, ps);
    OtherOperation(verb, path, ps);
  }

  // ---------------------------------------------------------------------------------------
  // Hosts
  // ---------------------------------------------------------------------------------------

  /** The AWS endpoints, after a bucket: global, regional, dual-stack and with a dash, in lower case. */
  predicate AwsEndpoint(t: string, region: string) {
    && RegionLabel(region)
    && (t == ".s3.amazonaws.com" || t == ".s3." + region + ".amazonaws.com" || t == ".s3.dualstack." + region + ".amazonaws.com"
        || t == ".s3-" + region + ".amazonaws.com")
  }

  /** A bucket in front of an AWS endpoint, in any letter case. */
  ghost predicate VirtualHost(h: string, bucket: string) {
    bucket != "" && exists endpoint: string, region: string :: AwsEndpoint(Lower(endpoint), region) && h == bucket + endpoint
  }

  /** An AWS endpoint alone, in any letter case. */
  ghost predicate BareEndpoint(h: string) {
    exists region: string :: AwsEndpoint("." + Lower(h), region)
  }

  /** Not a name of AWS S3's: it does not end as one, or no label of it is the service's. */
  predicate NotAws(h: string) {
    var l := TrimDots(Lower(h));
    || |l| < 14 || l[|l| - 14..] != ".amazonaws.com"
    || ((forall i :: 0 < i <= |l| ==> NoServiceAt(l, i)) && !("s3." <= l) && !("s3-" <= l))
  }

  predicate Configured(h: string, endpoints: seq<string>) {
    exists i :: 0 <= i < |endpoints| && Lower(endpoints[i]) == Lower(h)
  }

  /** `h` is `bucket` and a dot ahead of the endpoint, in any letter case. */
  predicate Under(h: string, ep: string, bucket: string) {
    bucket != "" && |h| == |bucket| + 1 + |ep| && h[..|bucket|] == bucket && h[|bucket|] == '.'
    && Lower(h[|bucket| + 1..]) == Lower(ep)
  }

  /** The first configured endpoint `h` is under makes it `bucket`'s. */
  predicate UnderFirst(h: string, endpoints: seq<string>, bucket: string) {
    exists i :: 0 <= i < |endpoints| && Under(h, endpoints[i], bucket)
                && forall j :: 0 <= j < i ==> !Under(h, endpoints[j], h[..Cut(h, endpoints[j])])
  }

  function Cut(h: string, ep: string): nat { if |h| > |ep| then |h| - |ep| - 1 else 0 }

  predicate UnderNone(h: string, endpoints: seq<string>) {
    forall j :: 0 <= j < |endpoints| ==> !Under(h, endpoints[j], h[..Cut(h, endpoints[j])])
  }

  lemma NoTrailingDot(t: string, region: string)
    requires AwsEndpoint(t, region)
    ensures t[|t| - 1] == 'm' && TrimDots(t) == t
  {
  }

  lemma EndpointTail(t: string, region: string)
    requires AwsEndpoint(t, region)
    ensures ServiceTail(t)
  {
    hide ServiceTail;
    AwsEndpointForms(region);
    assert ".s3" + AWS_SUFFIX == ".s3.amazonaws.com";
  }

  lemma VirtualIs(h: string, bucket: string)
    requires VirtualHost(h, bucket)
    ensures BucketFromHost(h) == Some(bucket)
  {
    hide AwsEndpoint, ServiceTail, Lower, BucketFromHost;
    var endpoint: string, region: string :| AwsEndpoint(Lower(endpoint), region) && h == bucket + endpoint;
    NoTrailingDot(Lower(endpoint), region);
    EndpointTail(Lower(endpoint), region);
    BucketOfComposed(bucket, endpoint);
  }

  /** With no service label in `t` but at its start, there is none in what follows its dot. */
  lemma NoLabelInside(l: string)
    requires ServiceTail("." + l)
    ensures ServiceIndex(l).None?
  {
    forall i | 0 <= i <= |l| ensures !MatchAt(l, i, ".s3.") && !MatchAt(l, i, ".s3-") {
      assert NoServiceAt("." + l, i + 1);
      MatchShift(".", l, i, ".s3.");
      MatchShift(".", l, i, ".s3-");
    }
  }

  lemma StartsLabel(l: string)
    requires ServiceTail("." + l)
    ensures ("s3." <= l || "s3-" <= l) && EndsWith(l, AWS_SUFFIX) && |l| > 0
  {
    hide EndsWith;
    LongEnough(l);
    SameEnd(l);
    LabelAtStart(l);
  }

  lemma SameEnd(l: string)
    requires ServiceTail("." + l) && |l| >= |AWS_SUFFIX|
    ensures EndsWith(l, AWS_SUFFIX)
  {
    var t := "." + l;
    assert t[|t| - |AWS_SUFFIX|..] == l[|l| - |AWS_SUFFIX|..];
  }

  lemma LabelAtStart(l: string)
    requires MatchAt("." + l, 0, ".s3.") || MatchAt("." + l, 0, ".s3-")
    ensures "s3." <= l || "s3-" <= l
  {
    hide MatchAt;
    var t := "." + l;
    assert "." + "s3." == ".s3." && "." + "s3-" == ".s3-";
    if MatchAt(t, 0, ".s3.") {
      AfterDot(t, "s3.");
    } else {
      AfterDot(t, "s3-");
    }
    assert |l| >= 3 && t[1..4] == l[..3];
  }

  lemma AfterDot(t: string, pat: string)
    requires MatchAt(t, 0, "." + pat)
    ensures |t| > |pat| && t[1..1 + |pat|] == pat
  {
    forall j | 0 <= j < |pat| ensures t[1 + j] == pat[j] {
      assert t[0 + (j + 1)] == ("." + pat)[j + 1];
    }
  }

  /** The suffix and the label do not overlap. */
  lemma LongEnough(l: string)
    requires ServiceTail("." + l)
    ensures |l| >= |AWS_SUFFIX|
  {
    var t := "." + l;
    if |t| == |AWS_SUFFIX| {
      assert t == AWS_SUFFIX;
      assert t[0 + 1] == 'a';
      Mismatch(t, 0, ".s3.", 1);
      Mismatch(t, 0, ".s3-", 1);
    }
  }

  lemma BareIs(h: string)
    requires BareEndpoint(h)
    ensures BucketFromHost(h) == None && IsS3Endpoint(h)
  {
    hide Lower, AwsEndpoint, ServiceTail, ServiceIndex;
    var region: string :| AwsEndpoint("." + Lower(h), region);
    var l := Lower(h);
    NoTrailingDot("." + l, region);
    EndpointTail("." + l, region);
    StartsLabel(l);
    NoLabelInside(l);
    BareCanonical(l);
  }

  lemma BareCanonical(l: string)
    requires |l| > 0 && ("." + l)[|l|] == 'm'
    ensures TrimDots(l) == l
  {
  }

  lemma NotAwsIs(h: string)
    requires NotAws(h)
    ensures BucketFromHost(h) == None && !IsS3Endpoint(h)
  {
    hide Lower;
    var l := Canonical(h);
    TrimDotsPrefix(Lower(h));
    if EndsWith(l, AWS_SUFFIX) {
      assert l[|l| - 14..] == ".amazonaws.com";
      assert forall i :: 0 < i <= |l| ==> NoServiceAt(l, i);
      hide MatchAt;
      var dotted, dashed := FindLast(l, ".s3.", |l|), FindLast(l, ".s3-", |l|);
      assert dotted.Some? && dotted.value > 0 ==> !NoServiceAt(l, dotted.value);
      assert dashed.Some? && dashed.value > 0 ==> !NoServiceAt(l, dashed.value);
    }
  }

  lemma ConfiguredIs(h: string, endpoints: seq<string>)
    ensures MatchesEndpoint(h, endpoints) <==> Configured(h, endpoints)
  {
    hide Lower;
    if Configured(h, endpoints) {
      var i :| 0 <= i < |endpoints| && Lower(endpoints[i]) == Lower(h);
      assert SameIgnoringCase(h, endpoints[i]);
    }
  }

  /** Whether `h` is under an endpoint is told by what is ahead of it. */
  lemma UnderIs(h: string, ep: string)
    ensures var cut := |h| - |ep|;
            (cut > 1 && SameIgnoringCase(h[cut..], ep) && h[cut - 1] == '.') <==> Under(h, ep, h[..Cut(h, ep)])
  {
    hide Lower;
  }

  lemma {:induction false} UnderFirstIs(h: string, endpoints: seq<string>, i: nat)
    requires i <= |endpoints| && forall j :: 0 <= j < i ==> !Under(h, endpoints[j], h[..Cut(h, endpoints[j])])
    ensures i == |endpoints| ==> BucketFromEndpoint(h, endpoints) == None
    ensures i < |endpoints| && Under(h, endpoints[i], h[..Cut(h, endpoints[i])]) ==>
              BucketFromEndpoint(h, endpoints) == Some(h[..Cut(h, endpoints[i])])
  {
    hide Under, SameIgnoringCase;
    if endpoints != [] {
      UnderIs(h, endpoints[0]);
      if i > 0 {
        assert forall j :: 0 <= j < |endpoints| - 1 ==> endpoints[1..][j] == endpoints[j + 1];
        UnderFirstIs(h, endpoints[1..], i - 1);
      }
    }
  }

  lemma SubdomainIs(h: string, endpoints: seq<string>, bucket: string)
    requires UnderFirst(h, endpoints, bucket)
    ensures BucketFromEndpoint(h, endpoints) == Some(bucket)
  {
    hide Lower;
    var i :| 0 <= i < |endpoints| && Under(h, endpoints[i], bucket)
             && forall j :: 0 <= j < i ==> !Under(h, endpoints[j], h[..Cut(h, endpoints[j])]);
    assert h[..Cut(h, endpoints[i])] == bucket;
    UnderFirstIs(h, endpoints, i);
  }

  // ---------------------------------------------------------------------------------------
  // Requests
  // ---------------------------------------------------------------------------------------

  /** A host as a client sends it, with or without a port. */
  function Authority(h: string, port: Option<string>): string {
    match port
    case None => h
    case Some(p) => h + ":" + p
  }

  predicate PlainHost(h: string, port: Option<string>) {
    h != "" && ':' !in h && h[0] != '[' && (port.Some? ==> port.value != "" && Digits(port.value))
  }

  lemma PortOff(h: string, port: Option<string>)
    requires PlainHost(h, port)
    ensures HostWithoutPort(Authority(h, port)) == h
  {
    if port.Some? {
      PortIsStripped(h, port.value);
    } else {
      NoPort(h);
    }
  }

  /** Where a host has its bucket: in its own name, in the path, or nowhere, not being S3's. */
  datatype Style = InHost(bucket: string) | InPath | NotS3

  ghost predicate Styled(h: string, endpoints: seq<string>, style: Style) {
    match style
    case InHost(b) => VirtualHost(h, b) || (NotAws(h) && !Configured(h, endpoints) && UnderFirst(h, endpoints, b))
    case InPath => BareEndpoint(h) || (NotAws(h) && Configured(h, endpoints))
    case NotS3 => NotAws(h) && !Configured(h, endpoints) && UnderNone(h, endpoints)
  }

  /** What a request names: a bucket, if any, and a key, empty if none. */
  datatype Wanted = Wanted(s3: bool, bucket: Option<string>, key: string)

  predicate NamedBy(style: Style, path: string, w: Wanted) {
    match style
    case InHost(b) => w.s3 && w.bucket == Some(b) && path == "/" + w.key
    case InPath =>
      && w.s3
      && (match w.bucket
          case None => path == "/" && w.key == ""
          case Some(b) => b != "" && '/' !in b && (path == "/" + b + "/" + w.key || (w.key == "" && path == "/" + b)))
    case NotS3 => !w.s3 && w.bucket == None && path == "/" + w.key
  }

  /** What comes of it. */
  predicate Resolves(r: Resolved, verb: string, ps: seq<Param>, w: Wanted) {
    && r.isS3 == w.s3 && r.bucket == w.bucket && r.key == (if w.key == "" then None else Some(w.key))
    && Asks(verb, w.key != "", ps, r.op)
  }

  lemma FinishIs(verb: string, key: string, ps: seq<Param>, bucket: Option<string>, s3: bool)
    requires forall i :: 0 <= i < |ps| ==> PlainParam(ps[i])
    ensures Resolves(Finish(verb, "/" + key, QueryText(ps), bucket, s3), verb, ps, Wanted(s3, bucket, key))
  {
    hide Asks, Classify, QueryText, PlainParam;
    OperationOf(verb, "/" + key, ps);
    assert ("/" + key)[1..] == key;
  }

  lemma BucketAndKey(verb: string, b: string, key: string, ps: seq<Param>)
    requires (forall i :: 0 <= i < |ps| ==> PlainParam(ps[i])) && b != "" && '/' !in b
    ensures Resolves(PathStyle(verb, "/" + b + "/" + key, QueryText(ps)), verb, ps, Wanted(true, Some(b), key))
  {
    hide Finish, QueryText, PlainParam, Resolves, SplitOnce;
    FinishIs(verb, key, ps, Some(b), true);
    var path, tail := "/" + b + "/" + key, b + "/" + key;
    assert path[1..] == tail;
    assert path[1 + |b|..] == "/" + key;
    FirstSlash(b, key);
    assert StripSlash(path) == tail;
    hide StripSlash;
  }

  lemma BucketAlone(verb: string, b: string, ps: seq<Param>)
    requires (forall i :: 0 <= i < |ps| ==> PlainParam(ps[i])) && '/' !in b
    ensures Resolves(PathStyle(verb, "/" + b, QueryText(ps)), verb, ps, Wanted(true, if b == "" then None else Some(b), ""))
  {
    hide Finish, QueryText, PlainParam, Resolves;
    FinishIs(verb, "", ps, if b == "" then None else Some(b), true);
    assert "/" + "" == "/";
    assert ("/" + b)[1..] == b;
  }

  lemma PathIs(verb: string, path: string, ps: seq<Param>, w: Wanted)
    requires (forall i :: 0 <= i < |ps| ==> PlainParam(ps[i])) && NamedBy(InPath, path, w)
    ensures Resolves(PathStyle(verb, path, QueryText(ps)), verb, ps, w)
  {
    hide PathStyle, QueryText, PlainParam, Resolves;
    if w.bucket.Some? {
      var b := w.bucket.value;
      if path == "/" + b + "/" + w.key {
        BucketAndKey(verb, b, w.key, ps);
      } else {
        BucketAlone(verb, b, ps);
      }
    } else {
      BucketAlone(verb, "", ps);
      assert "/" + "" == "/";
    }
  }

  lemma StyleIs(h: string, endpoints: seq<string>, style: Style)
    requires Styled(h, endpoints, style)
    ensures match style
            case InHost(b) => BucketFromHost(h) == Some(b)
                              || (BucketFromHost(h) == None && !IsS3Endpoint(h) && !MatchesEndpoint(h, endpoints)
                                  && BucketFromEndpoint(h, endpoints) == Some(b))
            case InPath => BucketFromHost(h) == None && (IsS3Endpoint(h) || MatchesEndpoint(h, endpoints))
            case NotS3 => BucketFromHost(h) == None && !IsS3Endpoint(h) && !MatchesEndpoint(h, endpoints)
                          && BucketFromEndpoint(h, endpoints) == None
  {
    hide VirtualHost, BareEndpoint, NotAws, Configured, UnderFirst, BucketFromHost, IsS3Endpoint, MatchesEndpoint, BucketFromEndpoint;
    ConfiguredIs(h, endpoints);
    if NotAws(h) {
      NotAwsIs(h);
    }
    match style
    case InHost(b) =>
      if VirtualHost(h, b) {
        VirtualIs(h, b);
      } else {
        SubdomainIs(h, endpoints, b);
      }
    case InPath =>
      if BareEndpoint(h) {
        BareIs(h);
      }
    case NotS3 => UnderFirstIs(h, endpoints, |endpoints|);
  }

  /**
    What a composed request resolves to: by where its host has the bucket, the bucket and the key that host and path
    name, with or without a port, and the operation its method and query stand for.
   */
  lemma TargetReadsBack(verb: string, path: string, ps: seq<Param>, h: string, port: Option<string>, endpoints: seq<string>,
                        style: Style, w: Wanted)
    requires (forall i :: 0 <= i < |ps| ==> PlainParam(ps[i])) && PlainHost(h, port)
    requires Styled(h, endpoints, style) && NamedBy(style, path, w)
    ensures Resolves(ResolveWith(verb, path, QueryText(ps), Some(Authority(h, port)), endpoints), verb, ps, w)
  {
    hide Styled, Finish, PathStyle, QueryText, PlainParam, Resolves, BucketFromHost, IsS3Endpoint, MatchesEndpoint, BucketFromEndpoint,
      HostWithoutPort;
    PortOff(h, port);
    StyleIs(h, endpoints, style);
    if style.InPath? {
      PathIs(verb, path, ps, w);
    } else {
      FinishIs(verb, w.key, ps, w.bucket, w.s3);
    }
  }

  /** With no host at all, nothing is taken for S3's. */
  lemma NoHostReadsBack(verb: string, key: string, ps: seq<Param>, endpoints: seq<string>)
    requires forall i :: 0 <= i < |ps| ==> PlainParam(ps[i])
    ensures Resolves(ResolveWith(verb, "/" + key, QueryText(ps), None, endpoints), verb, ps, Wanted(false, None, key))
  {
    hide Finish, QueryText, PlainParam, Resolves;
    FinishIs(verb, key, ps, None, false);
  }
}
