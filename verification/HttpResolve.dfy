/**
  Which S3 object a request names: the operation, the bucket and the key, under virtual-hosted
  and path-style addressing.
 */
module HttpResolve {
  import opened Wrappers
  import opened HttpHead

  datatype S3Op =
    | GetObject | PutObject | HeadObject | DeleteObject | DeleteObjects
    | ListObjectsV2 | ListObjects
    | CreateMultipartUpload | UploadPart | CompleteMultipartUpload | AbortMultipartUpload
    | CreateSession | Unknown

  const AWS_SUFFIX: string := ".amazonaws.com"

  // ---------------------------------------------------------------------------------------
  // The operation
  // ---------------------------------------------------------------------------------------

  /** The `name[=value]` pairs of a query string. */
  function Pairs(query: string): seq<(string, string)> {
    PairsOf(Split(query, '&'))
  }

  function PairsOf(params: seq<string>): seq<(string, string)> {
    if params == [] then []
    else if params[0] == "" then PairsOf(params[1..])
    else [SplitOnce(params[0], '=').GetOr((params[0], ""))] + PairsOf(params[1..])
  }

  predicate Has(query: string, name: string) {
    exists i :: 0 <= i < |Pairs(query)| && Pairs(query)[i].0 == name
  }

  function FirstValue(pairs: seq<(string, string)>, name: string): Option<string> {
    if pairs == [] then None
    else if pairs[0].0 == name then Some(pairs[0].1)
    else FirstValue(pairs[1..], name)
  }

  function Classify(verb: string, path: string, query: string): S3Op {
    var hasKey := |path| > 1;
    if verb == "GET" then
      if Has(query, "session") then CreateSession
      else if FirstValue(Pairs(query), "list-type") == Some("2") then ListObjectsV2
      else if !hasKey then ListObjects
      else GetObject
    else if verb == "HEAD" then (if !hasKey then Unknown else HeadObject)
    else if verb == "PUT" then
      if Has(query, "partNumber") && Has(query, "uploadId") then UploadPart
      else if !hasKey then Unknown
      else PutObject
    else if verb == "POST" then
      if Has(query, "delete") then DeleteObjects
      else if Has(query, "uploads") then CreateMultipartUpload
      else if Has(query, "uploadId") then CompleteMultipartUpload
      else Unknown
    else if verb == "DELETE" then
      if Has(query, "uploadId") then AbortMultipartUpload
      else if !hasKey then Unknown
      else DeleteObject
    else Unknown
  }

  // ---------------------------------------------------------------------------------------
  // The host
  // ---------------------------------------------------------------------------------------

  /** The last occurrence of `pat` at or before `i`. */
  function FindLast(s: string, pat: string, i: nat): (r: Option<nat>)
    ensures r.Some? ==> r.value <= i && MatchAt(s, r.value, pat)
    ensures r.Some? ==> forall j :: r.value < j <= i ==> !MatchAt(s, j, pat)
    ensures r.None? ==> forall j :: 0 <= j <= i ==> !MatchAt(s, j, pat)
  {
    if MatchAt(s, i, pat) then Some(i) else if i == 0 then None else FindLast(s, pat, i - 1)
  }

  /** The service label nearest the suffix, in either endpoint form. */
  function ServiceIndex(lower: string): Option<nat> {
    var dotted, dashed := FindLast(lower, ".s3.", |lower|), FindLast(lower, ".s3-", |lower|);
    if dotted.Some? && (dashed.None? || dotted.value >= dashed.value) then dotted else dashed
  }

  function Canonical(host: string): string { TrimDots(Lower(host)) }

  lemma {:induction false} TrimDotsPrefix(s: string)
    ensures TrimDots(s) <= s
  {
    if s != "" && s[|s| - 1] == '.' {
      TrimDotsPrefix(s[..|s| - 1]);
    }
  }

  /** The bucket of an AWS virtual-hosted name, in the letter case it was sent in. */
  function BucketFromHost(host: string): Option<string> {
    var lower := Canonical(host);
    TrimDotsPrefix(Lower(host));
    if !EndsWith(lower, AWS_SUFFIX) then None
    else
      match ServiceIndex(lower)
      case None => None
      case Some(i) => if i == 0 then None else Some(host[..i])
  }

  /** The last occurrence of a character. */
  function LastIndexOf(s: string, c: char): (r: Option<nat>)
    ensures r.Some? ==> r.value < |s| && s[r.value] == c && c !in s[r.value + 1..]
    ensures r.None? ==> c !in s
  {
    if s == "" then None
    else if s[|s| - 1] == c then Some(|s| - 1)
    else
      var r := LastIndexOf(s[..|s| - 1], c);
      if r.Some? then assert s[r.value + 1..] == s[..|s| - 1][r.value + 1..] + [s[|s| - 1]]; r else r
  }

  function HostWithoutPort(host: string): string {
    match LastIndexOf(host, ':')
    case None => host
    case Some(i) =>
      var h, port := host[..i], host[i + 1..];
      if h != "" && ':' !in h && h[0] != '[' && port != "" && Digits(port) then h else host
  }

  predicate IsS3Endpoint(host: string) {
    var lower := Canonical(host);
    (StartsWith(lower, "s3.") || StartsWith(lower, "s3-")) && EndsWith(lower, AWS_SUFFIX)
  }

  predicate MatchesEndpoint(host: string, endpoints: seq<string>) {
    exists i :: 0 <= i < |endpoints| && SameIgnoringCase(host, endpoints[i])
  }

  /** The labels before a configured endpoint, for the first endpoint that is a proper suffix. */
  function BucketFromEndpoint(host: string, endpoints: seq<string>): Option<string> {
    if endpoints == [] then None
    else
      var ep := endpoints[0];
      var cut := |host| - |ep|;
      if cut > 1 && SameIgnoringCase(host[cut..], ep) && host[cut - 1] == '.' then Some(host[..cut - 1])
      else BucketFromEndpoint(host, endpoints[1..])
  }

  method BucketFromEndpointSubdomain(host: string, endpoints: seq<string>) returns (r: Option<string>)
    ensures r == BucketFromEndpoint(host, endpoints)
  {
    var i := 0;
    while i < |endpoints|
      invariant 0 <= i <= |endpoints|
      invariant BucketFromEndpoint(host, endpoints[i..]) == BucketFromEndpoint(host, endpoints)
    {
      var ep := endpoints[i];
      assert endpoints[i..][0] == ep && endpoints[i..][1..] == endpoints[i + 1..];
      i := i + 1;
      if |host| < |ep| { continue; }
      var cut := |host| - |ep|;
      if cut <= 1 { continue; }
      var prefix, suffix := host[..cut], host[cut..];
      if !SameIgnoringCase(suffix, ep) { continue; }
      if prefix[|prefix| - 1] == '.' {
        return Some(host[..|prefix| - 1]);
      }
    }
    return None;
  }

  // ---------------------------------------------------------------------------------------
  // Resolution
  // ---------------------------------------------------------------------------------------

  datatype Resolved = Resolved(op: S3Op, bucket: Option<string>, key: Option<string>, isS3: bool)

  function StripSlash(p: string): string {
    if p != "" && p[0] == '/' then p[1..] else p
  }

  function Finish(verb: string, keyPath: string, query: string, bucket: Option<string>, isS3: bool): Resolved {
    var key := StripSlash(keyPath);
    Resolved(Classify(verb, keyPath, query), bucket, if key == "" then None else Some(key), isS3)
  }

  function PathStyle(verb: string, path: string, query: string): Resolved {
    var tail := StripSlash(path);
    match SplitOnce(tail, '/')
    case Some((b, k)) =>
      if b != "" then Finish(verb, path[1 + |b|..], query, Some(b), true)
      else Finish(verb, "/", query, None, true)
    case None => Finish(verb, "/", query, if tail != "" then Some(tail) else None, true)
  }

  function ResolveWith(verb: string, path: string, query: string, host: Option<string>,
                       endpoints: seq<string>): Resolved {
    var host := match host case None => None case Some(h) => Some(HostWithoutPort(h));
    if host.Some? && BucketFromHost(host.value).Some? then
      Finish(verb, path, query, BucketFromHost(host.value), true)
    else if host.Some? && (IsS3Endpoint(host.value) || MatchesEndpoint(host.value, endpoints)) then
      PathStyle(verb, path, query)
    else if host.Some? && BucketFromEndpoint(host.value, endpoints).Some? then
      Finish(verb, path, query, BucketFromEndpoint(host.value, endpoints), true)
    else Finish(verb, path, query, None, false)
  }

  method ResolveTarget(verb: string, path: string, query: string, host: Option<string>,
                       endpoints: seq<string>) returns (r: Resolved)
    ensures r == ResolveWith(verb, path, query, host, endpoints)
  {
    hide Classify, PathStyle, Finish, BucketFromHost, BucketFromEndpoint, IsS3Endpoint, MatchesEndpoint,
      HostWithoutPort;
    if host.None? {
      return Finish(verb, path, query, None, false);
    }
    var h := HostWithoutPort(host.value);
    var bucket := BucketFromHost(h);
    if bucket.Some? {
      return Finish(verb, path, query, bucket, true);
    }
    if IsS3Endpoint(h) || MatchesEndpoint(h, endpoints) {
      return PathStyle(verb, path, query);
    }
    bucket := BucketFromEndpointSubdomain(h, endpoints);
    return Finish(verb, path, query, bucket, bucket.Some?);
  }

  // ---------------------------------------------------------------------------------------
  // Distinct objects stay distinct
  // ---------------------------------------------------------------------------------------

  predicate OriginForm(path: string) { path != "" && path[0] == '/' }

  /** Path-style resolution takes the path apart without losing any of it. */
  lemma PathStyleReassembles(verb: string, path: string, query: string)
    requires OriginForm(path)
    ensures var r := PathStyle(verb, path, query);
            r.key.Some? ==> r.bucket.Some? && path == "/" + r.bucket.value + "/" + r.key.value
  {
    hide Classify;
    var tail := StripSlash(path);
    match SplitOnce(tail, '/')
    case None =>
    case Some((b, k)) =>
      if b != "" {
        assert path == "/" + tail == "/" + b + "/" + k;
        assert path[1 + |b|..] == "/" + k;
      }
  }

  /** And puts a composed path back into its parts. */
  lemma PathStyleRoundTrip(verb: string, query: string, bucket: string, key: string)
    requires bucket != "" && '/' !in bucket && key != ""
    ensures var r := PathStyle(verb, "/" + bucket + "/" + key, query);
            r.bucket == Some(bucket) && r.key == Some(key)
  {
    var path := "/" + bucket + "/" + key;
    var tail := StripSlash(path);
    assert tail == bucket + "/" + key;
    assert tail[..|bucket|] == bucket;
    IndexOfIs(tail, '/', |bucket|);
    assert path[1 + |bucket|..] == "/" + key;
  }

  /** Whether requests to this host carry the bucket in their path. */
  predicate BucketInPath(host: Option<string>, endpoints: seq<string>) {
    host.Some? &&
    var h := HostWithoutPort(host.value);
    BucketFromHost(h).None? && (IsS3Endpoint(h) || MatchesEndpoint(h, endpoints))
  }

  /** The path a bucket and key stand for on one host. */
  function Rebuild(host: Option<string>, endpoints: seq<string>, bucket: Option<string>, key: string): string {
    if BucketInPath(host, endpoints) then "/" + bucket.GetOr("") + "/" + key else "/" + key
  }

  /** Resolution is undone by rebuilding: the path comes back from the bucket and key alone. */
  lemma ResolveThenRebuild(verb: string, path: string, query: string, host: Option<string>, endpoints: seq<string>)
    requires OriginForm(path)
    ensures var r := ResolveWith(verb, path, query, host, endpoints);
            r.key.Some? ==> path == Rebuild(host, endpoints, r.bucket, r.key.value)
  {
    hide Classify, BucketFromHost, BucketFromEndpoint, IsS3Endpoint, MatchesEndpoint, HostWithoutPort;
    PathStyleReassembles(verb, path, query);
  }

  /**
    On one host, two requests that resolve to the same bucket and the same key asked for the same
    path, whatever verbs and queries they used: resolution never collapses two objects into one.
   */
  lemma ObjectsStayDistinct(verb1: string, path1: string, query1: string,
                            verb2: string, path2: string, query2: string,
                            host: Option<string>, endpoints: seq<string>)
    requires OriginForm(path1) && OriginForm(path2)
    ensures var r1 := ResolveWith(verb1, path1, query1, host, endpoints);
            var r2 := ResolveWith(verb2, path2, query2, host, endpoints);
            r1.bucket == r2.bucket && r1.key == r2.key && r1.key.Some? ==> path1 == path2
  {
    hide ResolveWith, Rebuild;
    ResolveThenRebuild(verb1, path1, query1, host, endpoints);
    ResolveThenRebuild(verb2, path2, query2, host, endpoints);
  }

  /**
    What resolution keeps of a path: one leading slash is taken off, and where the bucket is in the
    path, outside origin form, one more in front of the key.
   */
  function Unslashed(path: string, inPath: bool): string {
    var tail := StripSlash(path);
    if !inPath || OriginForm(path) then tail
    else
      match SplitOnce(tail, '/')
      case None => tail
      case Some((b, k)) => b + "/" + StripSlash(k)
  }

  lemma FirstSlash(a: string, b: string)
    requires '/' !in a
    ensures SplitOnce(a + "/" + b, '/') == Some((a, b))
  {
    var s := a + "/" + b;
    assert s[..|a|] == a && s[|a| + 1..] == b;
    IndexOfIs(s, '/', |a|);
  }

  /** A path-style object, and what is kept of its path. */
  lemma PathStyleKeeps(verb: string, path: string, query: string)
    ensures var r := PathStyle(verb, path, query);
            r.key.Some? ==>
              r.bucket.Some? && '/' !in r.bucket.value && Unslashed(path, true) == r.bucket.value + "/" + r.key.value
  {
    hide Classify;
    var tail := StripSlash(path);
    match SplitOnce(tail, '/')
    case None =>
    case Some((b, k)) =>
      if b != "" {
        if OriginForm(path) {
          assert path[1 + |b|..] == "/" + k;
        } else {
          assert path[1 + |b|..] == k;
        }
      }
  }

  lemma SamePathStyle(verb1: string, path1: string, query1: string, verb2: string, path2: string, query2: string)
    requires PathStyle(verb1, path1, query1).key.Some? && PathStyle(verb2, path2, query2).key.Some?
    ensures var r1, r2 := PathStyle(verb1, path1, query1), PathStyle(verb2, path2, query2);
            r1.bucket == r2.bucket && r1.key == r2.key <==> Unslashed(path1, true) == Unslashed(path2, true)
  {
    hide PathStyle, Unslashed;
    PathStyleKeeps(verb1, path1, query1);
    PathStyleKeeps(verb2, path2, query2);
    var r1, r2 := PathStyle(verb1, path1, query1), PathStyle(verb2, path2, query2);
    FirstSlash(r1.bucket.value, r1.key.value);
    FirstSlash(r2.bucket.value, r2.key.value);
  }

  lemma SameFinish(verb1: string, path1: string, query1: string, verb2: string, path2: string, query2: string,
                   bucket: Option<string>, isS3: bool)
    requires Finish(verb1, path1, query1, bucket, isS3).key.Some? && Finish(verb2, path2, query2, bucket, isS3).key.Some?
    ensures var r1, r2 := Finish(verb1, path1, query1, bucket, isS3), Finish(verb2, path2, query2, bucket, isS3);
            r1.bucket == r2.bucket && r1.key == r2.key <==> Unslashed(path1, false) == Unslashed(path2, false)
  {
    hide Classify;
  }

  /**
    Exactly which requests on one host name one object, for any paths at all: those whose paths differ
    at most by the slashes resolution takes off. In origin form there are none; outside it "/a" and "a"
    collapse on every host, and "b//k" and "b/k" where the bucket is in the path.
   */
  lemma SharedObject(verb1: string, path1: string, query1: string, verb2: string, path2: string, query2: string,
                     host: Option<string>, endpoints: seq<string>)
    ensures var r1 := ResolveWith(verb1, path1, query1, host, endpoints);
            var r2 := ResolveWith(verb2, path2, query2, host, endpoints);
            var inPath := BucketInPath(host, endpoints);
            r1.key.Some? && r2.key.Some? ==>
              (r1.bucket == r2.bucket && r1.key == r2.key <==> Unslashed(path1, inPath) == Unslashed(path2, inPath))
  {
    hide Classify, PathStyle, Finish, BucketFromHost, BucketFromEndpoint, IsS3Endpoint, MatchesEndpoint,
      HostWithoutPort, Unslashed;
    var r1 := ResolveWith(verb1, path1, query1, host, endpoints);
    var r2 := ResolveWith(verb2, path2, query2, host, endpoints);
    if r1.key.Some? && r2.key.Some? {
      if BucketInPath(host, endpoints) {
        SamePathStyle(verb1, path1, query1, verb2, path2, query2);
      } else {
        var h := if host.Some? then HostWithoutPort(host.value) else "";
        var inHost := host.Some? && BucketFromHost(h).Some?;
        var inEndpoint := host.Some? && !inHost && BucketFromEndpoint(h, endpoints).Some?;
        var bucket := if inHost then BucketFromHost(h) else if inEndpoint then BucketFromEndpoint(h, endpoints) else None;
        SameFinish(verb1, path1, query1, verb2, path2, query2, bucket, inHost || inEndpoint);
      }
    }
  }

  /** Whether a path names an object at all: something is left of it, past the bucket if that is in the path. */
  predicate NamesObject(path: string, inPath: bool) {
    var kept := Unslashed(path, inPath);
    if !inPath then kept != ""
    else
      match SplitOnce(kept, '/')
      case None => false
      case Some((b, k)) => b != "" && k != ""
  }

  /** A path-style request names an object exactly when its bucket and what is left past it are not empty. */
  lemma PathStyleSplit(verb: string, path: string, query: string)
    ensures var split := SplitOnce(StripSlash(path), '/');
            var rest := if OriginForm(path) then split.GetOr(("", "")).1 else StripSlash(split.GetOr(("", "")).1);
            PathStyle(verb, path, query).key.Some? <==> split.Some? && split.value.0 != "" && rest != ""
  {
    hide Classify, SplitOnce;
    var tail := StripSlash(path);
    match SplitOnce(tail, '/')
    case None =>
    case Some((b, k)) =>
      assert tail == b + "/" + k;
      if OriginForm(path) {
        assert path == "/" + tail;
        assert path[1 + |b|..] == "/" + k;
      } else {
        assert path[1 + |b|..] == k;
      }
  }

  lemma UnslashedSplit(path: string)
    ensures var split := SplitOnce(StripSlash(path), '/');
            var kept := SplitOnce(Unslashed(path, true), '/');
            if split.None? then kept.None?
            else kept == Some((split.value.0, if OriginForm(path) then split.value.1 else StripSlash(split.value.1)))
  {
    hide SplitOnce;
    match SplitOnce(StripSlash(path), '/')
    case None =>
    case Some((b, k)) => FirstSlash(b, StripSlash(k));
  }

  lemma PathStyleNames(verb: string, path: string, query: string)
    ensures PathStyle(verb, path, query).key.Some? <==> NamesObject(path, true)
  {
    hide PathStyle, SplitOnce, Unslashed, StripSlash, OriginForm;
    PathStyleSplit(verb, path, query);
    UnslashedSplit(path);
  }

  lemma KeyOfObject(verb: string, path: string, query: string, host: Option<string>, endpoints: seq<string>)
    ensures ResolveWith(verb, path, query, host, endpoints).key.Some? <==> NamesObject(path, BucketInPath(host, endpoints))
  {
    PathStyleNames(verb, path, query);
    hide Classify, PathStyle, BucketFromHost, BucketFromEndpoint, IsS3Endpoint, MatchesEndpoint, HostWithoutPort,
      SplitOnce;
  }

  /** The one collapse on a host that has the bucket elsewhere, and both that path style adds. */
  lemma Collapses(b: string, k: string)
    requires b != "" && '/' !in b && k != "" && k[0] != '/'
    ensures Unslashed("/" + k, false) == Unslashed(k, false)
    ensures Unslashed("/" + b + "/" + k, true) == Unslashed(b + "/" + k, true) == Unslashed(b + "//" + k, true)
    ensures NamesObject("/" + b + "/" + k, true)
  {
    FirstSlash(b, k);
    FirstSlash(b, "/" + k);
    assert b + "//" + k == b + "/" + ("/" + k);
    assert ("/" + b + "/" + k)[1..] == b + "/" + k;
    assert ("/" + k)[1..] == k;
    assert (b + "/" + k)[0] == b[0] && (b + "//" + k)[0] == b[0];
  }

  predicate ObjectOp(op: S3Op) {
    op.GetObject? || op.PutObject? || op.HeadObject? || op.DeleteObject?
  }

  lemma ObjectOpNeedsPath(verb: string, path: string, query: string)
    ensures ObjectOp(Classify(verb, path, query)) ==> |path| > 1
  {
  }

  /** An operation labelled as acting on an object always comes with that object's key. */
  lemma ObjectOpHasKey(verb: string, path: string, query: string, host: Option<string>, endpoints: seq<string>)
    ensures var r := ResolveWith(verb, path, query, host, endpoints);
            ObjectOp(r.op) ==> r.key.Some?
  {
    hide Classify, BucketFromHost, BucketFromEndpoint, IsS3Endpoint, MatchesEndpoint, HostWithoutPort;
    forall p: string {
      ObjectOpNeedsPath(verb, p, query);
    }
  }

  // ---------------------------------------------------------------------------------------
  // Composed endpoints
  // ---------------------------------------------------------------------------------------

  predicate NoServiceAt(t: string, i: nat) {
    !MatchAt(t, i, ".s3.") && !MatchAt(t, i, ".s3-")
  }

  /** An endpoint after the bucket: its service label, and no later one that could be mistaken for it. */
  predicate ServiceTail(t: string) {
    && EndsWith(t, AWS_SUFFIX)
    && (MatchAt(t, 0, ".s3.") || MatchAt(t, 0, ".s3-"))
    && (forall i :: 0 < i <= |t| ==> NoServiceAt(t, i))
  }

  lemma LowerConcat(a: string, b: string)
    ensures Lower(a + b) == Lower(a) + Lower(b)
  {
  }

  lemma {:induction false} TrimDotsConcat(a: string, b: string)
    requires TrimDots(b) != ""
    ensures TrimDots(a + b) == a + TrimDots(b)
    decreases |b|
  {
    if b[|b| - 1] == '.' {
      assert (a + b)[..|a + b| - 1] == a + b[..|b| - 1];
      TrimDotsConcat(a, b[..|b| - 1]);
    }
  }

  /** The service label of a composed host is the one right after the bucket. */
  lemma ServiceIndexOfComposed(b: string, t: string)
    requires ServiceTail(t)
    ensures ServiceIndex(b + t) == Some(|b|)
  {
    var s := b + t;
    MatchShift(b, t, 0, ".s3.");
    MatchShift(b, t, 0, ".s3-");
    forall i | |b| < i <= |s| ensures !MatchAt(s, i, ".s3.") && !MatchAt(s, i, ".s3-") {
      assert NoServiceAt(t, i - |b|);
      MatchShift(b, t, i - |b|, ".s3.");
      MatchShift(b, t, i - |b|, ".s3-");
    }
    FindLastIs(s, ".s3.", |b|);
    FindLastIs(s, ".s3-", |b|);
  }

  lemma FindLastIs(s: string, pat: string, r: nat)
    requires r <= |s| && forall i :: r < i <= |s| ==> !MatchAt(s, i, pat)
    ensures MatchAt(s, r, pat) ==> FindLast(s, pat, |s|) == Some(r)
    ensures !MatchAt(s, r, pat) ==> FindLast(s, pat, |s|).None? || FindLast(s, pat, |s|).value < r
  {
  }

  /**
    The bucket of a composed host is the bucket, whatever service labels its own name contains,
    in whatever letter case, with or without the root dot.
   */
  lemma BucketOfComposed(bucket: string, endpoint: string)
    requires bucket != "" && ServiceTail(Canonical(endpoint))
    ensures BucketFromHost(bucket + endpoint) == Some(bucket)
  {
    var t := Canonical(endpoint);
    LowerConcat(bucket, endpoint);
    TrimDotsConcat(Lower(bucket), Lower(endpoint));
    ServiceIndexOfComposed(Lower(bucket), t);
    assert Canonical(bucket + endpoint) == Lower(bucket) + t;
    assert (Lower(bucket) + t)[|Lower(bucket) + t| - |AWS_SUFFIX|..] == t[|t| - |AWS_SUFFIX|..];
    assert (bucket + endpoint)[..|bucket|] == bucket;
  }

  lemma {:induction false} LastIndexOfIs(a: string, c: char, b: string)
    requires c !in b
    ensures LastIndexOf(a + [c] + b, c) == Some(|a|)
    decreases |b|
  {
    var s := a + [c] + b;
    if b == "" {
      assert s[|s| - 1] == c;
    } else {
      assert s[|s| - 1] == b[|b| - 1];
      assert s[..|s| - 1] == a + [c] + b[..|b| - 1];
      LastIndexOfIs(a, c, b[..|b| - 1]);
    }
  }

  /** The same, through a port. */
  lemma PortIsStripped(host: string, port: string)
    requires host != "" && ':' !in host && host[0] != '[' && port != "" && Digits(port)
    ensures HostWithoutPort(host + ":" + port) == host
  {
    var s := host + ":" + port;
    LastIndexOfIs(host, ':', port);
    assert s[..|host|] == host && s[|host| + 1..] == port;
  }

  /** And nothing else ever is: what is taken off is a colon and digits, behind a name with no colon of its own. */
  lemma OnlyPortsAreStripped(host: string)
    ensures var h := HostWithoutPort(host);
            h != host ==> |h| < |host| && h == host[..|h|] && h != "" && ':' !in h && h[0] != '['
                          && host[|h|] == ':' && |h| + 1 < |host|
                          && forall i :: |h| < i < |host| ==> '0' <= host[i] <= '9'
  {
    var i := LastIndexOf(host, ':');
    if i.Some? {
      var port := host[i.value + 1..];
      assert forall j :: i.value < j < |host| ==> host[j] == port[j - i.value - 1];
    }
  }

  lemma NoPort(host: string)
    requires ':' !in host
    ensures HostWithoutPort(host) == host
  {
  }

  /** A virtual-hosted request resolves to its bucket and its whole path, port and all. */
  lemma VirtualHosted(verb: string, path: string, query: string, bucket: string, endpoint: string, port: string,
                      endpoints: seq<string>)
    requires bucket != "" && ':' !in bucket && bucket[0] != '[' && ':' !in endpoint
    requires ServiceTail(Canonical(endpoint)) && port != "" && Digits(port)
    ensures ResolveWith(verb, path, query, Some(bucket + endpoint + ":" + port), endpoints)
         == ResolveWith(verb, path, query, Some(bucket + endpoint), endpoints)
         == Finish(verb, path, query, Some(bucket), true)
  {
    hide HostWithoutPort, BucketFromHost, Finish, ServiceTail, Canonical;
    BucketOfComposed(bucket, endpoint);
    NoPort(bucket + endpoint);
    PortIsStripped(bucket + endpoint, port);
  }

  /** A region label as AWS writes one: no dot, and not itself a service label. */
  predicate RegionLabel(r: string) {
    '.' !in r && !StartsWith(r, "s3-") && r != "s3"
  }

  lemma NoDotNoService(t: string, i: nat)
    requires i < |t| ==> t[i] != '.'
    ensures NoServiceAt(t, i)
  {
    Mismatch(t, i, ".s3.", 0);
    Mismatch(t, i, ".s3-", 0);
  }

  lemma OtherLabel(t: string, i: nat)
    requires i + 1 < |t| && t[i + 1] != 's'
    ensures NoServiceAt(t, i)
  {
    Mismatch(t, i, ".s3.", 1);
    Mismatch(t, i, ".s3-", 1);
  }

  /** Nothing in the suffix looks like a service label. */
  lemma SuffixHasNoService(pre: string, i: nat)
    requires i >= |pre|
    ensures NoServiceAt(pre + AWS_SUFFIX, i)
  {
    var t := pre + AWS_SUFFIX;
    if i < |t| && t[i] == '.' {
      assert i == |pre| || i == |pre| + 10;
      OtherLabel(t, i);
    } else {
      NoDotNoService(t, i);
    }
  }

  /** A region label right after a dot is not a service label either. */
  lemma RegionHasNoService(pre: string, region: string, i: nat)
    requires RegionLabel(region) && pre != "" && |pre| - 1 <= i < |pre| + |region|
    ensures NoServiceAt(pre + region + AWS_SUFFIX, i)
  {
    var t := pre + region + AWS_SUFFIX;
    if i >= |pre| {
      assert t[i] == region[i - |pre|];
      NoDotNoService(t, i);
    } else if |region| < 2 {
      assert t[i + 2] == if |region| == 0 then 'a' else '.';
      Mismatch(t, i, ".s3.", 2);
      Mismatch(t, i, ".s3-", 2);
    } else if region[..2] != "s3" {
      assert t[i + 1] == region[0] && t[i + 2] == region[1];
      var j := if region[0] != 's' then 1 else 2;
      Mismatch(t, i, ".s3.", j);
      Mismatch(t, i, ".s3-", j);
    } else {
      assert region[..2] + region[2..] == region;
      assert |region| > 2;
      assert t[i + 3] == region[2];
      assert region[..3] == region[..2] + [region[2]];
      Mismatch(t, i, ".s3.", 3);
      Mismatch(t, i, ".s3-", 3);
    }
  }

  /** Every AWS endpoint form, with or without a region, composes with every bucket. */
  lemma AwsEndpointForms(region: string)
    requires RegionLabel(region)
    ensures ServiceTail(".s3" + AWS_SUFFIX)
    ensures ServiceTail(".s3." + region + AWS_SUFFIX)
    ensures ServiceTail(".s3.dualstack." + region + AWS_SUFFIX)
    ensures ServiceTail(".s3-" + region + AWS_SUFFIX)
  {
    GlobalForm();
    RegionalForm(".s3.", region);
    RegionalForm(".s3.dualstack.", region);
    RegionalForm(".s3-", region);
  }

  lemma GlobalForm()
    ensures ServiceTail(".s3" + AWS_SUFFIX)
  {
    var t := ".s3" + AWS_SUFFIX;
    forall i | 0 < i <= |t| ensures NoServiceAt(t, i) {
      if i >= 3 { SuffixHasNoService(".s3", i); } else { NoDotNoService(t, i); }
    }
    assert t[|t| - |AWS_SUFFIX|..] == AWS_SUFFIX;
    assert MatchAt(t, 0, ".s3.");
  }

  lemma RegionalForm(pre: string, region: string)
    requires pre == ".s3." || pre == ".s3.dualstack." || pre == ".s3-"
    requires RegionLabel(region)
    ensures ServiceTail(pre + region + AWS_SUFFIX)
  {
    var t := pre + region + AWS_SUFFIX;
    forall i | 0 < i <= |t| ensures NoServiceAt(t, i) {
      if i >= |pre| + |region| {
        SuffixHasNoService(pre + region, i);
      } else if i >= |pre| - 1 {
        RegionHasNoService(pre, region, i);
      } else if t[i] == '.' {
        assert i == 3 && t[4] == 'd';
        OtherLabel(t, i);
      } else {
        NoDotNoService(t, i);
      }
    }
    assert t[|t| - |AWS_SUFFIX|..] == AWS_SUFFIX;
    assert MatchAt(t, 0, pre[..4]);
    assert pre[..4] == ".s3." || pre[..4] == ".s3-";
  }
}
