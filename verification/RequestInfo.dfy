/** From an HTTP request to its authorization attributes, and back. */
module RequestInfo {
  import opened Common
  import opened StableSort
  import opened Strings

  datatype Method = GET | HEAD | POST | PUT | PATCH | DELETE | OPTIONS | OTHER

  datatype Request =
    | Resource(
        verb: string, group: Option<string>, version: Option<string>, resource: string,
        subresource: Option<string>, namespace: Option<string>, name: Option<string>,
        fieldSelector: Option<string>, labelSelector: Option<string>)
    | NonResource(verb: string, url: string)

  /** The raw query string, if any, and how its values are percent-decoded. */
  datatype Query = Query(raw: Option<string>, decode: string -> string)

  // ---------------------------------------------------------------- verbs

  function NonResourceVerb(m: Method): string {
    match m
    case GET => "get"
    case HEAD => "get"
    case POST => "post"
    case PUT => "put"
    case PATCH => "patch"
    case DELETE => "delete"
    case OPTIONS => "options"
    case OTHER => "get"
  }

  function ResourceVerb(m: Method, named: bool, watch: bool): string {
    match m
    case GET => if named then "get" else if watch then "watch" else "list"
    case HEAD => if named then "get" else if watch then "watch" else "list"
    case POST => "create"
    case PUT => "update"
    case PATCH => "patch"
    case DELETE => if named then "delete" else "deletecollection"
    case OPTIONS => "get"
    case OTHER => "get"
  }

  function SubresourceVerb(m: Method, sub: string): string {
    if sub in ["exec", "attach", "portforward", "eviction", "token"] then "create"
    else if sub == "log" then "get"
    else
      match m
      case GET => "get"
      case HEAD => "get"
      case POST => "create"
      case PUT => "update"
      case PATCH => "patch"
      case DELETE => "delete"
      case OPTIONS => "get"
      case OTHER => "get"
  }

  // ---------------------------------------------------------------- the query string

  /** The value of the first `key=value` pair with this key. */
  function FindParam(pairs: seq<string>, key: string): Option<string> {
    if pairs == [] then None
    else
      var kv := Split(pairs[0], '=');
      if |kv| > 1 && kv[0] == key then Some(Join(kv[1..], '=')) else FindParam(pairs[1..], key)
  }

  function Param(q: Query, key: string): Option<string> {
    if q.raw.None? then None
    else
      var raw := FindParam(Split(q.raw.value, '&'), key);
      if raw.None? then None else Some(q.decode(raw.value))
  }

  predicate Watches(q: Query) {
    Param(q, "watch") in [Some("true"), Some("1")]
  }

  // ---------------------------------------------------------------- the resolver

  predicate NonEmpty(s: string) {
    s != ""
  }

  function Segments(path: string): seq<string> {
    Filter(Split(path, '/'), NonEmpty)
  }

  function OptionOf(s: string): Option<string> {
    if s == "" then None else Some(s)
  }

  predicate IsCollectionVerb(verb: string) {
    verb == "list" || verb == "watch" || verb == "deletecollection"
  }

  /** `AuthorizationRequest::resource` followed by `finish`: selectors only for the collection verbs. */
  function Finish(verb: string, group: string, version: string, resource: string, subresource: Option<string>,
                  namespace: Option<string>, name: Option<string>, q: Query): Request {
    var selects := IsCollectionVerb(verb);
    Resource(verb, OptionOf(group), OptionOf(version), resource, subresource, namespace, name,
             if selects then Param(q, "fieldSelector") else None,
             if selects then Param(q, "labelSelector") else None)
  }

  /** `resolve_resource_parts`: resource, then name, then subresource; anything further is ignored. */
  function ResolveParts(m: Method, group: string, version: string, namespace: Option<string>,
                        parts: seq<string>, q: Query): Request
    requires parts != []
  {
    var name := if |parts| > 1 then Some(parts[1]) else None;
    var sub := if |parts| > 2 then Some(parts[2]) else None;
    var verb := if sub.Some? then SubresourceVerb(m, sub.value) else ResourceVerb(m, name.Some?, Watches(q));
    Finish(verb, group, version, parts[0], sub, namespace, name, q)
  }

  /** The part of the resolver after the API prefix. */
  function ResolveRest(m: Method, group: string, version: string, rest: seq<string>, q: Query): Request
    requires rest != []
  {
    if rest[0] != "namespaces" then
      ResolveParts(m, group, version, None, rest, q)
    else if |rest| == 1 then
      Finish(ResourceVerb(m, false, Watches(q)), group, version, "namespaces", None, None, None, q)
    else if |rest| == 2 then
      Finish(ResourceVerb(m, true, false), group, version, "namespaces", None, None, Some(rest[1]), q)
    else if |rest| == 3 && rest[2] in ["status", "finalize"] then
      Finish(SubresourceVerb(m, rest[2]), group, version, "namespaces", Some(rest[2]), None, Some(rest[1]), q)
    else
      ResolveParts(m, group, version, Some(rest[1]), rest[2..], q)
  }

  /** `resolve_request_info`. */
  function Resolve(m: Method, path: string, q: Query): Request {
    var segs := Segments(path);
    if |segs| >= 3 && segs[0] == "api" then
      ResolveRest(m, "", segs[1], segs[2..], q)
    else if |segs| >= 4 && segs[0] == "apis" then
      ResolveRest(m, segs[1], segs[2], segs[3..], q)
    else
      NonResource(NonResourceVerb(m), path)
  }

  // ---------------------------------------------------------------- canonical paths

  /** What a resource path names; the empty group is the core group. */
  datatype Attributes = Attributes(
    group: string, version: string, namespace: Option<string>, resource: string,
    name: Option<string>, subresource: Option<string>)

  predicate IsSegment(s: string) {
    s != "" && '/' !in s
  }

  predicate IsSegmentIfAny(s: Option<string>) {
    s.Some? ==> IsSegment(s.value)
  }

  predicate WellFormed(a: Attributes) {
    && (a.group == "" || IsSegment(a.group)) && IsSegment(a.version) && IsSegment(a.resource)
    && IsSegmentIfAny(a.namespace) && IsSegmentIfAny(a.name) && IsSegmentIfAny(a.subresource)
    && (a.subresource.Some? ==> a.name.Some?)
  }

  function Optional(s: Option<string>): seq<string> {
    if s.Some? then [s.value] else []
  }

  function RestOf(a: Attributes): (rest: seq<string>)
    ensures rest != []
  {
    (if a.namespace.Some? then ["namespaces", a.namespace.value] else [])
    + [a.resource] + Optional(a.name) + Optional(a.subresource)
  }

  function SegmentsOf(a: Attributes): (segs: seq<string>)
    ensures |segs| >= 3
  {
    (if a.group == "" then ["api", a.version] else ["apis", a.group, a.version]) + RestOf(a)
  }

  function SlashedIfAny(s: Option<string>): string {
    if s.Some? then "/" + s.value else ""
  }

  /** The canonical path. */
  function Print(a: Attributes): string {
    (if a.group == "" then "/api/" else "/apis/" + a.group + "/") + a.version
    + (if a.namespace.Some? then "/namespaces/" + a.namespace.value else "")
    + "/" + a.resource + SlashedIfAny(a.name) + SlashedIfAny(a.subresource)
  }

  /** What the resolver ought to answer for these attributes. */
  function Expected(m: Method, a: Attributes, q: Query): Request {
    var verb := if a.subresource.Some? then SubresourceVerb(m, a.subresource.value)
                else ResourceVerb(m, a.name.Some?, Watches(q));
    Finish(verb, a.group, a.version, a.resource, a.subresource, a.namespace, a.name, q)
  }

  /**
     The attributes whose canonical path reads as something else: a namespaced collection called
     `status` or `finalize` (the namespace's own subresource), and any other subresource of a
     namespace object (a resource inside that namespace).
   */
  predicate Ambiguous(a: Attributes) {
    || (a.namespace.Some? && a.name.None? && a.resource in ["status", "finalize"])
    || (a.namespace.None? && a.resource == "namespaces" && a.subresource.Some?
        && a.subresource.value !in ["status", "finalize"])
  }

  lemma {:induction false} FilterKeepsAll(parts: seq<string>)
    requires forall i :: 0 <= i < |parts| ==> parts[i] != ""
    ensures Filter(parts, NonEmpty) == parts
  {
    if parts != [] {
      FilterKeepsAll(parts[1..]);
      assert [parts[0]] + parts[1..] == parts;
    }
  }

  lemma SegmentsOfAreSegments(a: Attributes)
    requires WellFormed(a)
    ensures forall i :: 0 <= i < |SegmentsOf(a)| ==> IsSegment(SegmentsOf(a)[i])
  {
  }

  lemma JoinOptional(parts: seq<string>, o: Option<string>)
    requires |parts| > 0
    ensures Join(parts + Optional(o), '/') == Join(parts, '/') + SlashedIfAny(o)
  {
    if o.Some? {
      JoinAppend(parts, [o.value], '/');
    } else {
      assert parts + Optional(o) == parts;
    }
  }

  function PrefixOf(a: Attributes): (parts: seq<string>)
    ensures |parts| > 0
  {
    (if a.group == "" then ["api", a.version] else ["apis", a.group, a.version])
    + if a.namespace.Some? then ["namespaces", a.namespace.value] else []
  }

  lemma JoinTwo(x: string, y: string)
    ensures Join([x, y], '/') == x + "/" + y
  {
    assert [x, y][1..] == [y];
  }

  lemma ApiJoins(a: Attributes)
    ensures "/" + Join(if a.group == "" then ["api", a.version] else ["apis", a.group, a.version], '/')
         == (if a.group == "" then "/api/" else "/apis/" + a.group + "/") + a.version
  {
    JoinTwo("api", a.version);
    JoinTwo(a.group, a.version);
    assert ["apis", a.group, a.version][1..] == [a.group, a.version];
    assert Join(["apis", a.group, a.version], '/') == "apis" + ['/'] + (a.group + "/" + a.version);
  }

  lemma PrefixJoins(a: Attributes)
    ensures "/" + Join(PrefixOf(a), '/')
         == (if a.group == "" then "/api/" else "/apis/" + a.group + "/") + a.version
            + if a.namespace.Some? then "/namespaces/" + a.namespace.value else ""
  {
    var api := if a.group == "" then ["api", a.version] else ["apis", a.group, a.version];
    ApiJoins(a);
    if a.namespace.Some? {
      JoinTwo("namespaces", a.namespace.value);
      JoinAppend(api, ["namespaces", a.namespace.value], '/');
    } else {
      assert PrefixOf(a) == api;
    }
  }

  /** The canonical path is a slash and the segments, joined by slashes. */
  lemma PrintIsJoin(a: Attributes)
    ensures Print(a) == "/" + Join(SegmentsOf(a), '/')
  {
    var prefix := PrefixOf(a);
    assert SegmentsOf(a) == prefix + [a.resource] + Optional(a.name) + Optional(a.subresource);
    PrefixJoins(a);
    JoinAppend(prefix, [a.resource], '/');
    JoinOptional(prefix + [a.resource], a.name);
    JoinOptional(prefix + [a.resource] + Optional(a.name), a.subresource);
  }

  lemma PrintedSegments(a: Attributes)
    requires WellFormed(a)
    ensures Segments(Print(a)) == SegmentsOf(a)
  {
    var segs := SegmentsOf(a);
    SegmentsOfAreSegments(a);
    PrintIsJoin(a);
    SplitAppend("", Join(segs, '/'), '/');
    assert "" + ['/'] + Join(segs, '/') == Print(a);
    SplitJoin(segs, '/');
    assert Split(Print(a), '/') == [""] + segs;
    assert ([""] + segs)[1..] == segs;
    FilterKeepsAll(segs);
  }

  lemma PrintedResolves(m: Method, a: Attributes, q: Query)
    requires WellFormed(a)
    ensures Resolve(m, Print(a), q) == ResolveRest(m, a.group, a.version, RestOf(a), q)
  {
    PrintedSegments(a);
    var segs := SegmentsOf(a);
    assert segs[if a.group == "" then 2 else 3..] == RestOf(a);
  }

  /** The attributes a resource answer carries. */
  function AttributesOf(r: Request): Attributes
    requires r.Resource?
  {
    Attributes(if r.group.Some? then r.group.value else "", if r.version.Some? then r.version.value else "",
               r.namespace, r.resource, r.name, r.subresource)
  }

  lemma {:induction false} SegmentsAreSegments(path: string)
    ensures forall i :: 0 <= i < |Segments(path)| ==> IsSegment(Segments(path)[i])
  {
    SplitHasNone(path, '/');
    FilterMembers(Split(path, '/'), NonEmpty);
    forall i | 0 <= i < |Segments(path)| ensures IsSegment(Segments(path)[i]) {
      assert Segments(path)[i] in Segments(path);
      assert Segments(path)[i] in Split(path, '/');
    }
  }

  lemma ExpectedCarries(m: Method, a: Attributes, q: Query)
    ensures Expected(m, a, q).Resource? && AttributesOf(Expected(m, a, q)) == a
  {
  }

  function PartsAttributes(group: string, version: string, namespace: Option<string>, parts: seq<string>): Attributes
    requires parts != []
  {
    Attributes(group, version, namespace, parts[0],
               if |parts| > 1 then Some(parts[1]) else None, if |parts| > 2 then Some(parts[2]) else None)
  }

  /** Whether the segments after the API prefix name something inside a namespace. */
  predicate Namespaced(rest: seq<string>) {
    |rest| >= 3 && rest[0] == "namespaces" && !(|rest| == 3 && rest[2] in ["status", "finalize"])
  }

  function RestAttributes(group: string, version: string, rest: seq<string>): Attributes
    requires rest != []
  {
    if Namespaced(rest) then PartsAttributes(group, version, Some(rest[1]), rest[2..])
    else PartsAttributes(group, version, None, rest)
  }

  lemma RestIsExpected(m: Method, group: string, version: string, rest: seq<string>, q: Query)
    requires rest != []
    ensures ResolveRest(m, group, version, rest, q) == Expected(m, RestAttributes(group, version, rest), q)
  {
  }

  lemma RestIsUnambiguous(group: string, version: string, rest: seq<string>)
    requires group == "" || IsSegment(group)
    requires IsSegment(version) && rest != [] && forall i :: 0 <= i < |rest| ==> IsSegment(rest[i])
    ensures WellFormed(RestAttributes(group, version, rest)) && !Ambiguous(RestAttributes(group, version, rest))
  {
  }

  lemma RestReadsBack(a: Attributes)
    requires WellFormed(a)
    ensures RestAttributes(a.group, a.version, RestOf(a)) == a <==> !Ambiguous(a)
  {
    var rest := RestOf(a);
    var tail := [a.resource] + Optional(a.name) + Optional(a.subresource);
    if a.namespace.Some? { assert rest[2..] == tail; } else { assert rest == tail; }
  }

  /** What ambiguous attributes are taken for: the namespace's own subresource, or a collection inside it. */
  function ReadsAs(a: Attributes): Attributes
    requires WellFormed(a) && Ambiguous(a)
  {
    if a.namespace.Some? then Attributes(a.group, a.version, None, "namespaces", a.namespace, Some(a.resource))
    else Attributes(a.group, a.version, a.name, a.subresource.value, None, None)
  }

  lemma ReadsAsSamePath(a: Attributes)
    requires WellFormed(a) && Ambiguous(a)
    ensures WellFormed(ReadsAs(a)) && !Ambiguous(ReadsAs(a)) && ReadsAs(a) != a
    ensures Print(ReadsAs(a)) == Print(a)
  {
    assert RestOf(ReadsAs(a)) == RestOf(a);
    assert SegmentsOf(ReadsAs(a)) == SegmentsOf(a);
    PrintIsJoin(a);
    PrintIsJoin(ReadsAs(a));
  }

  lemma UnambiguousRoundTrip(m: Method, a: Attributes, q: Query)
    requires WellFormed(a) && !Ambiguous(a)
    ensures Resolve(m, Print(a), q) == Expected(m, a, q)
  {
    PrintedResolves(m, a, q);
    RestIsExpected(m, a.group, a.version, RestOf(a), q);
    RestReadsBack(a);
  }

  /**
     Printing well-formed attributes and resolving the path gives them back, exactly when they are
     not ambiguous; ambiguous ones share their path with what they are taken for.
   */
  lemma RoundTrip(m: Method, a: Attributes, q: Query)
    requires WellFormed(a)
    ensures Resolve(m, Print(a), q) == Expected(m, a, q) <==> !Ambiguous(a)
    ensures Ambiguous(a) ==>
              Print(ReadsAs(a)) == Print(a) && Resolve(m, Print(a), q) == Expected(m, ReadsAs(a), q)
  {
    if Ambiguous(a) {
      ReadsAsSamePath(a);
      UnambiguousRoundTrip(m, ReadsAs(a), q);
      ExpectedCarries(m, a, q);
      ExpectedCarries(m, ReadsAs(a), q);
    } else {
      UnambiguousRoundTrip(m, a, q);
    }
  }

  /** The collection at `/api/v1/namespaces/dev/status`. */
  const STATUS_IN_DEV := Attributes("", "v1", Some("dev"), "status", None, None)

  lemma StatusVerb()
    ensures SubresourceVerb(GET, "status") == "get"
  {
  }

  /** Listing a namespaced resource called `status` is authorized as reading the status of the namespace. */
  lemma StatusCollectionReadsAsNamespaceStatus(q: Query)
    ensures var r := Resolve(GET, Print(STATUS_IN_DEV), q);
            && r.Resource? && r.verb == "get"
            && AttributesOf(r) == Attributes("", "v1", None, "namespaces", Some("dev"), Some("status"))
    ensures !Watches(q) ==> Expected(GET, STATUS_IN_DEV, q).verb == "list"
  {
    assert WellFormed(STATUS_IN_DEV) && Ambiguous(STATUS_IN_DEV);
    RoundTrip(GET, STATUS_IN_DEV, q);
    ExpectedCarries(GET, ReadsAs(STATUS_IN_DEV), q);
    StatusVerb();
  }

  lemma RestIsReadable(m: Method, group: string, version: string, rest: seq<string>, q: Query)
    requires group == "" || IsSegment(group)
    requires IsSegment(version) && rest != [] && forall i :: 0 <= i < |rest| ==> IsSegment(rest[i])
    ensures var r := ResolveRest(m, group, version, rest, q);
            && r.Resource? && WellFormed(AttributesOf(r)) && !Ambiguous(AttributesOf(r))
            && r == Expected(m, AttributesOf(r), q)
  {
    RestIsExpected(m, group, version, rest, q);
    RestIsUnambiguous(group, version, rest);
    ExpectedCarries(m, RestAttributes(group, version, rest), q);
  }

  /**
     Whatever path a client sends, a resource answer is the answer to a canonical path: its
     attributes are well formed and unambiguous, and printing and resolving them gives it again.
   */
  lemma AnswersAreCanonical(m: Method, path: string, q: Query)
    requires Resolve(m, path, q).Resource?
    ensures var r := Resolve(m, path, q);
            && WellFormed(AttributesOf(r)) && !Ambiguous(AttributesOf(r))
            && r == Expected(m, AttributesOf(r), q)
            && Resolve(m, Print(AttributesOf(r)), q) == r
  {
    var segs := Segments(path);
    SegmentsAreSegments(path);
    if segs[0] == "api" {
      RestIsReadable(m, "", segs[1], segs[2..], q);
    } else {
      RestIsReadable(m, segs[1], segs[2], segs[3..], q);
    }
    RoundTrip(m, AttributesOf(Resolve(m, path, q)), q);
  }

  /** Exactly the attributes that round-trip are answers to some path. */
  lemma ReachableAttributes(m: Method, a: Attributes, q: Query)
    requires WellFormed(a)
    ensures (exists path :: Resolve(m, path, q).Resource? && AttributesOf(Resolve(m, path, q)) == a) <==> !Ambiguous(a)
  {
    RoundTrip(m, a, q);
    if exists path :: Resolve(m, path, q).Resource? && AttributesOf(Resolve(m, path, q)) == a {
      var path :| Resolve(m, path, q).Resource? && AttributesOf(Resolve(m, path, q)) == a;
      AnswersAreCanonical(m, path, q);
    }
    if !Ambiguous(a) {
      assert AttributesOf(Resolve(m, Print(a), q)) == a;
    }
  }

  predicate WholeCollection(a: Attributes) {
    a.name.None? && a.subresource.None?
  }

  lemma SubresourceVerbIsNoCollectionVerb(m: Method, sub: string)
    ensures !IsCollectionVerb(SubresourceVerb(m, sub))
  {
    assert "create" != "list" && "get" != "list" && "update" != "list" && "patch" != "list" && "delete" != "list";
    assert "create" != "watch" && "get" != "watch" && "update" != "watch" && "patch" != "watch" && "delete" != "watch";
  }

  lemma ResourceVerbCollects(m: Method, named: bool, watch: bool)
    ensures IsCollectionVerb(ResourceVerb(m, named, watch)) <==> !named && m in [GET, HEAD, DELETE]
  {
  }

  /** Which requests carry selectors: those that read, watch or delete a whole collection. */
  predicate Selects(m: Method, a: Attributes) {
    WholeCollection(a) && m in [GET, HEAD, DELETE]
  }

  lemma ExpectedSelectors(m: Method, a: Attributes, q: Query)
    ensures var r := Expected(m, a, q);
            && r.fieldSelector == (if Selects(m, a) then Param(q, "fieldSelector") else None)
            && r.labelSelector == (if Selects(m, a) then Param(q, "labelSelector") else None)
  {
    if a.subresource.Some? {
      SubresourceVerbIsNoCollectionVerb(m, a.subresource.value);
    } else {
      ResourceVerbCollects(m, a.name.Some?, Watches(q));
    }
  }

  lemma ExpectedWatch(m: Method, a: Attributes, q: Query)
    ensures Expected(m, a, q).verb == "watch" <==> m in [GET, HEAD] && WholeCollection(a) && Watches(q)
  {
  }

  /** Whatever the path, the query's selectors reach the authorizer with exactly the requests for a whole collection. */
  lemma SelectorsExactlyOnCollections(m: Method, path: string, q: Query)
    requires Resolve(m, path, q).Resource?
    ensures var r := Resolve(m, path, q);
            && r.fieldSelector == (if Selects(m, AttributesOf(r)) then Param(q, "fieldSelector") else None)
            && r.labelSelector == (if Selects(m, AttributesOf(r)) then Param(q, "labelSelector") else None)
            && (r.verb == "watch" <==> m in [GET, HEAD] && WholeCollection(AttributesOf(r)) && Watches(q))
  {
    AnswersAreCanonical(m, path, q);
    ExpectedSelectors(m, AttributesOf(Resolve(m, path, q)), q);
    ExpectedWatch(m, AttributesOf(Resolve(m, path, q)), q);
  }

  // ---------------------------------------------------------------- the verbs, in words

  /** The path names a resource exactly when something follows its API prefix. */
  lemma ResourceExactly(m: Method, path: string, q: Query)
    ensures var segs := Segments(path);
            Resolve(m, path, q).Resource? <==>
              (|segs| >= 3 && segs[0] == "api") || (|segs| >= 4 && segs[0] == "apis")
  {
  }

  /** The group and version are those of the prefix; the core group is no group. */
  lemma GroupAndVersion(m: Method, path: string, q: Query)
    requires Resolve(m, path, q).Resource?
    ensures var segs, r := Segments(path), Resolve(m, path, q);
            if segs[0] == "api" then r.group == None && r.version == Some(segs[1])
            else r.group == Some(segs[1]) && r.version == Some(segs[2])
  {
    SegmentsAreSegments(path);
    var segs := Segments(path);
    assert IsSegment(segs[1]) && IsSegment(segs[2]);
  }

  /**
     What follows the prefix is read as resource, name and subresource, further segments being
     ignored; after `namespaces` and a name, as those of that namespace, unless what follows is just
     `status` or `finalize`.
   */
  lemma AttributesExactly(m: Method, path: string, q: Query)
    requires Resolve(m, path, q).Resource?
    ensures var segs, r := Segments(path), Resolve(m, path, q);
            var rest := segs[if segs[0] == "api" then 2 else 3..];
            if && |rest| >= 3 && rest[0] == "namespaces"
               && !(|rest| == 3 && (rest[2] == "status" || rest[2] == "finalize"))
            then
              && r.namespace == Some(rest[1]) && r.resource == rest[2]
              && r.name == (if |rest| > 3 then Some(rest[3]) else None)
              && r.subresource == (if |rest| > 4 then Some(rest[4]) else None)
            else
              && r.namespace == None && r.resource == rest[0]
              && r.name == (if |rest| > 1 then Some(rest[1]) else None)
              && r.subresource == (if |rest| > 2 then Some(rest[2]) else None)
  {
    var segs := Segments(path);
    if segs[0] == "api" {
      RestIsExpected(m, "", segs[1], segs[2..], q);
    } else {
      RestIsExpected(m, segs[1], segs[2], segs[3..], q);
    }
  }

  lemma NonResourceAnswers(m: Method, path: string, q: Query)
    requires Resolve(m, path, q).NonResource?
    ensures Resolve(m, path, q).url == path
    ensures var verb := Resolve(m, path, q).verb;
            && (m == GET || m == HEAD || m == OTHER ==> verb == "get")
            && (m == POST ==> verb == "post") && (m == PUT ==> verb == "put") && (m == PATCH ==> verb == "patch")
            && (m == DELETE ==> verb == "delete") && (m == OPTIONS ==> verb == "options")
  {
  }

  lemma VerbOfAnswer(m: Method, path: string, q: Query)
    requires Resolve(m, path, q).Resource?
    ensures var r := Resolve(m, path, q);
            r.verb == if r.subresource.Some? then SubresourceVerb(m, r.subresource.value)
                      else ResourceVerb(m, r.name.Some?, Watches(q))
  {
    AnswersAreCanonical(m, path, q);
  }

  /** The verb of a request for a resource itself, whatever its path. */
  lemma ResourceVerbs(m: Method, path: string, q: Query)
    requires Resolve(m, path, q).Resource? && Resolve(m, path, q).subresource.None?
    ensures var verb, named := Resolve(m, path, q).verb, Resolve(m, path, q).name.Some?;
            && (m == POST ==> verb == "create")
            && (m == PUT ==> verb == "update")
            && (m == PATCH ==> verb == "patch")
            && (m == DELETE && named ==> verb == "delete")
            && (m == DELETE && !named ==> verb == "deletecollection")
            && ((m == GET || m == HEAD) && named ==> verb == "get")
            && ((m == GET || m == HEAD) && !named && Watches(q) ==> verb == "watch")
            && ((m == GET || m == HEAD) && !named && !Watches(q) ==> verb == "list")
            && (m == OPTIONS || m == OTHER ==> verb == "get")
  {
    VerbOfAnswer(m, path, q);
  }

  /** The verb of a request for a subresource, whatever its path. */
  lemma SubresourceVerbs(m: Method, path: string, q: Query)
    requires Resolve(m, path, q).Resource? && Resolve(m, path, q).subresource.Some?
    ensures var verb, sub := Resolve(m, path, q).verb, Resolve(m, path, q).subresource.value;
            if sub == "exec" || sub == "attach" || sub == "portforward" || sub == "eviction" || sub == "token" then
              verb == "create"
            else if sub == "log" then
              verb == "get"
            else
              && (m == POST ==> verb == "create") && (m == PUT ==> verb == "update") && (m == PATCH ==> verb == "patch")
              && (m == DELETE ==> verb == "delete")
              && (m == GET || m == HEAD || m == OPTIONS || m == OTHER ==> verb == "get")
  {
    VerbOfAnswer(m, path, q);
  }

  // ---------------------------------------------------------------- the query, in words

  lemma KeyValue(part: string, key: string)
    requires '=' !in key
    ensures var kv := Split(part, '=');
            && (|kv| > 1 && kv[0] == key <==> key + "=" <= part)
            && (|kv| > 1 && kv[0] == key ==> Join(kv[1..], '=') == part[|key| + 1..])
  {
    var kv := Split(part, '=');
    JoinSplit(part, '=');
    if key + "=" <= part {
      assert part == key + ['='] + part[|key| + 1..];
      SplitWord(key, part[|key| + 1..], '=');
      JoinSplit(part[|key| + 1..], '=');
      assert kv[1..] == Split(part[|key| + 1..], '=');
    }
  }

  /** A parameter's value is what follows `key=` in the first part of the query that begins so. */
  lemma {:induction false} FindParamExactly(parts: seq<string>, key: string)
    requires '=' !in key
    ensures FindParam(parts, key).None? <==> forall i :: 0 <= i < |parts| ==> !(key + "=" <= parts[i])
    ensures FindParam(parts, key).Some? ==>
              exists i :: 0 <= i < |parts| && key + "=" <= parts[i]
                          && FindParam(parts, key).value == parts[i][|key| + 1..]
                          && forall j :: 0 <= j < i ==> !(key + "=" <= parts[j])
  {
    if parts != [] {
      KeyValue(parts[0], key);
      if !(key + "=" <= parts[0]) {
        var rest := parts[1..];
        FindParamExactly(rest, key);
        assert forall i :: 0 <= i < |rest| ==> rest[i] == parts[i + 1];
        assert forall i :: 0 < i < |parts| ==> parts[i] == rest[i - 1];
        if FindParam(rest, key).Some? {
          var i :| 0 <= i < |rest| && key + "=" <= rest[i] && FindParam(rest, key).value == rest[i][|key| + 1..]
                   && forall j :: 0 <= j < i ==> !(key + "=" <= rest[j]);
          assert key + "=" <= parts[i + 1];
        }
      }
    }
  }

  /** The whole query is read so: split at `&`, first match, decoded. */
  lemma ParamExactly(q: Query, key: string)
    requires '=' !in key
    ensures Param(q, key).None? <==>
            q.raw.None? || forall i :: 0 <= i < |Split(q.raw.value, '&')| ==> !(key + "=" <= Split(q.raw.value, '&')[i])
    ensures Param(q, key).Some? ==>
              var parts := Split(q.raw.value, '&');
              exists i :: 0 <= i < |parts| && key + "=" <= parts[i]
                          && Param(q, key).value == q.decode(parts[i][|key| + 1..])
                          && forall j :: 0 <= j < i ==> !(key + "=" <= parts[j])
  {
    if q.raw.Some? { FindParamExactly(Split(q.raw.value, '&'), key); }
  }

  /** A request watches exactly when its `watch` parameter is `true` or `1`. */
  lemma WatchesExactly(q: Query)
    ensures Watches(q) <==> Param(q, "watch") == Some("true") || Param(q, "watch") == Some("1")
  {
  }

  /** Two canonical paths, spelled out. */
  lemma PrintedPaths()
    ensures Print(Attributes("", "v1", Some("dev"), "pods", None, None)) == "/api/v1/namespaces/dev/pods"
    ensures Print(Attributes("apps", "v1", None, "x", Some("y"), Some("z"))) == "/apis/apps/v1/x/y/z"
  {
  }
}
