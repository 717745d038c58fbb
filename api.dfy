/** haiker/api.py: the request handler, which checks a path, joins it to
    the API root and hands the request to the HTTP transport, and the
    `Haiker` facade, whose endpoint methods choose a path and parameters,
    make one request and build records from the JSON response. The
    transport (`requests.get`/`post`, `raise_for_status`, `res.json()`) is
    a function parameter: it answers a request with decoded JSON or an
    exception. */
module Api {
  import opened Wrappers
  import opened Text
  import opened Exceptions
  import opened Utils
  import opened Types
  import opened HaikerErrors

  const DefaultRoot: string := "http://h.hatena.ne.jp/api"

  /** `utils.DEFAULT_USER_AGENT` for version 0.4.0. */
  const DefaultUserAgent: string := "python-haiker/0.4.0"

  // ---------------------------------------------------------------------
  // The path check of `_request`

  /** A character of the class `[a-zA-Z0-9./\-_]`. */
  predicate PathChar(c: char) {
    ('a' <= c <= 'z') || ('A' <= c <= 'Z') || ('0' <= c <= '9') || c == '.' || c == '/' || c == '-' || c == '_'
  }

  /** The pattern `[^a-zA-Z0-9./\-_]|\.\.|//` matches at `i`: one of its
      three alternatives does. */
  predicate MatchesAt(path: string, i: nat)
    requires i < |path|
  {
    || !PathChar(path[i])
    || (i + 1 < |path| && path[i] == '.' && path[i + 1] == '.')
    || (i + 1 < |path| && path[i] == '/' && path[i + 1] == '/')
  }

  /** `re.search(pattern, path[i:])`: where the first match starts. */
  function SearchFrom(path: string, i: nat): (r: Option<nat>)
    requires i <= |path|
    ensures r.Some? ==> i <= r.value < |path| && MatchesAt(path, r.value)
    ensures r.Some? ==> forall k :: i <= k < r.value ==> !MatchesAt(path, k)
    ensures r.None? ==> forall k :: i <= k < |path| ==> !MatchesAt(path, k)
    decreases |path| - i
  {
    if i == |path| then None
    else if MatchesAt(path, i) then Some(i)
    else SearchFrom(path, i + 1)
  }

  /** `re.search(pattern, path)`. */
  function Search(path: string): Option<nat> {
    SearchFrom(path, 0)
  }

  /** `sub` occurs in `s`. */
  predicate Contains(s: string, sub: string) {
    exists i :: 0 <= i <= |s| && sub <= s[i..]
  }

  /** The paths the handler sends: made of letters, digits, `.`, `/`, `-`
      and `_` only, with no `..` and no `//` anywhere. */
  predicate AcceptedPath(path: string) {
    && (forall c :: c in path ==> PathChar(c))
    && !Contains(path, "..")
    && !Contains(path, "//")
  }

  /** The regular expression finds nothing exactly in the accepted paths. */
  lemma {:induction false} SearchAccepts(path: string)
    ensures Search(path).None? <==> AcceptedPath(path)
  {
    if Search(path).None? {
      forall c | c in path ensures PathChar(c) {
        var k :| 0 <= k < |path| && path[k] == c;
        assert !MatchesAt(path, k);
      }
      forall i | 0 <= i <= |path|
        ensures !(".." <= path[i..]) && !("//" <= path[i..])
      {
        if i < |path| {
          assert !MatchesAt(path, i);
        }
      }
    } else {
      var k := Search(path).value;
      if !PathChar(path[k]) {
        assert path[k] in path;
      } else if path[k] == '.' {
        assert ".." <= path[k..];
      } else {
        assert "//" <= path[k..];
      }
    }
  }

  // ---------------------------------------------------------------------
  // Joining the root and the path

  /** `root.rstrip('/') + '/' + path.lstrip('/')`. */
  function JoinUrl(root: string, path: string): string {
    RStripChar(root, '/') + "/" + LStripChar(path, '/')
  }

  function Slashes(n: nat): (s: string)
    ensures |s| == n && forall i :: 0 <= i < n ==> s[i] == '/'
  {
    if n == 0 then [] else Slashes(n - 1) + "/"
  }

  lemma {:induction false} StripTrailingSlashes(base: string, m: nat)
    requires base == [] || base[|base| - 1] != '/'
    ensures RStripChar(base + Slashes(m), '/') == base
  {
    var s := base + Slashes(m);
    var t := RStripChar(s, '/');
    TrailingSlashAt(base, m, |t| - 1);
    assert t != [] ==> t[|t| - 1] == s[|t| - 1];
    assert base != [] ==> s[|base| - 1] == base[|base| - 1];
    assert |t| == |base|;
    assert s[..|base|] == base;
  }

  lemma {:induction false} StripLeadingSlashes(rest: string, n: nat)
    requires rest == [] || rest[0] != '/'
    ensures LStripChar(Slashes(n) + rest, '/') == rest
  {
    var s := Slashes(n) + rest;
    var t := LStripChar(s, '/');
    LeadingSlashAt(n, rest, |s| - |t|);
    assert t != [] ==> t[0] == s[|s| - |t|];
    assert rest != [] ==> s[n] == rest[0];
    assert |s| - |t| == n;
    assert s[n..] == rest;
  }

  lemma {:induction false} TrailingSlashAt(base: string, m: nat, i: int)
    ensures |base| <= i < |base| + m ==> (base + Slashes(m))[i] == '/'
  {
  }

  lemma {:induction false} LeadingSlashAt(n: nat, rest: string, i: int)
    ensures 0 <= i < n ==> (Slashes(n) + rest)[i] == '/'
  {
  }

  /** However many slashes end the root and start the path, the URL has
      exactly one between them. */
  lemma {:induction false} JoinUrlOneSlash(base: string, rest: string, m: nat, n: nat)
    requires base == [] || base[|base| - 1] != '/'
    requires rest == [] || rest[0] != '/'
    ensures JoinUrl(base + Slashes(m), Slashes(n) + rest) == base + "/" + rest
  {
    StripTrailingSlashes(base, m);
    StripLeadingSlashes(rest, n);
  }

  // ---------------------------------------------------------------------
  // Requests

  /** The auth objects of haiker/auth.py, carried as values. */
  datatype Auth =
    | NoAuth
    | BasicAuth(username: string, password: string)
    | OAuth(consumerKey: string, consumerSecret: string, accessToken: string, accessTokenSecret: string)

  datatype Verb = Get | Post

  /** The request handed to `requests.get`/`requests.post`. */
  datatype HttpRequest = HttpRequest(verb: Verb, url: string, headers: seq<(string, string)>, auth: Auth,
                                     params: Option<seq<(string, Option<Bytes>)>>,
                                     data: Option<seq<(string, Option<Bytes>)>>,
                                     files: Option<seq<(string, Value)>>)

  /** The HTTP exchange: the decoded JSON body, or the exception raised
      (`HTTPError` by `raise_for_status` included). */
  type Transport = HttpRequest -> Result<Json, Exception>

  /** The ValueError `_request` raises for a suspicious path. */
  function SuspiciousPath(path: string): (e: Exception)
    ensures e.Builtin? && e.kind == ValueError
  {
    Builtin(ValueError, "suspicious path: '" + path + "'")
  }

  /** Everything `_request` does before the transport: the path check, the
      URL, the User-Agent header, and `build_params` of the query parameters
      and of the form data, in that order. */
  function Prepare(auth: Auth, root: string, userAgent: string, verb: Verb, path: string,
                   params: Params, data: Params, files: Option<seq<(string, Value)>>): (r: Result<HttpRequest, Exception>)
    ensures !AcceptedPath(path) ==> r == Failure(SuspiciousPath(path))
    ensures r.Success? <==> AcceptedPath(path) && BuildParams(params).Success? && BuildParams(data).Success?
    ensures r.Success? ==> r.value == HttpRequest(verb, JoinUrl(root, path), [("User-Agent", userAgent)], auth,
                                                  BuildParams(params).value, BuildParams(data).value, files)
  {
    SearchAccepts(path);
    if Search(path).Some? then Failure(SuspiciousPath(path))
    else
      var url := JoinUrl(root, path);
      var query :- BuildParams(params);
      var form :- BuildParams(data);
      Success(HttpRequest(verb, url, [("User-Agent", userAgent)], auth, query, form, files))
  }

  /** A prepared request sent through the transport. */
  function Send(prepared: Result<HttpRequest, Exception>, transport: Transport): Result<Json, Exception> {
    match prepared
    case Success(req) => transport(req)
    case Failure(e) => Failure(e)
  }

  /** `BaseAPIHandler`: the credentials, the API root and the User-Agent of
      every request it makes. */
  class BaseApiHandler {
    var auth: Auth
    var root: string
    var userAgent: string

    constructor(auth: Auth, root: string, userAgent: string)
      ensures this.auth == auth && this.root == root && this.userAgent == userAgent
    {
      this.auth := auth;
      this.root := root;
      this.userAgent := userAgent;
    }

    /** `_request`: a suspicious path raises ValueError and reaches no
        transport; any other request goes out to `root` joined with `path`. */
    method Request(verb: Verb, path: string, params: Params, data: Params,
                   files: Option<seq<(string, Value)>>, transport: Transport) returns (r: Result<Json, Exception>)
      ensures r == Send(Prepare(auth, root, userAgent, verb, path, params, data, files), transport)
      ensures !AcceptedPath(path) ==> r == Failure(SuspiciousPath(path))
    {
      var prepared := Prepare(auth, root, userAgent, verb, path, params, data, files);
      if prepared.Failure? {
        return Failure(prepared.error);
      }
      r := transport(prepared.value);
    }

    /** `get(path, params)`. */
    method Fetch(path: string, params: Params, transport: Transport) returns (r: Result<Json, Exception>)
      ensures r == Send(Prepare(auth, root, userAgent, Get, path, params, NoParams, None), transport)
    {
      r := Request(Get, path, params, NoParams, None, transport);
    }

    /** `post(path, params, data, files)`. */
    method Submit(path: string, params: Params, data: Params, files: Option<seq<(string, Value)>>,
                  transport: Transport) returns (r: Result<Json, Exception>)
      ensures r == Send(Prepare(auth, root, userAgent, Post, path, params, data, files), transport)
    {
      r := Request(Post, path, params, data, files, transport);
    }
  }

  // ---------------------------------------------------------------------
  // Endpoints

  datatype Endpoint =
    | PublicTimeline | KeywordTimeline | UserTimeline | FriendsTimeline | Album
    | UpdateStatus | ShowStatus | DeleteStatus | AddStar | RemoveStar
    | ShowUser | ShowKeyword | HotKeywords | KeywordList | AssociateKeywords | DissociateKeywords
    | Friends | Followers | AddFriend | RemoveFriend
    | FavoriteKeywords | AddFavoriteKeyword | RemoveFavoriteKeyword

  /** How an endpoint names its resource: a fixed path; `{base}.json`, or
      `{base}/{url_name}.json` when a `url_name` is given; or
      `{base}/{argument}.json` for a required argument. */
  datatype PathRule = Fixed(path: string) | OptionalName(base: string) | Named(base: string, argument: string)

  /** The parameters each endpoint method declares after `self`, in order:
      the keys of `locals()` at the top of its body. */
  function Parameters(e: Endpoint): (names: seq<string>)
    ensures forall i, j :: 0 <= i < j < |names| ==> names[i] != names[j]
  {
    match e
    case PublicTimeline => ["body_formats", "count", "page", "since"]
    case KeywordTimeline => ["word", "count", "page", "since", "body_formats", "sort"]
    case UserTimeline => ["url_name", "body_formats", "count", "page", "since", "media", "sort"]
    case FriendsTimeline => ["url_name", "count", "page", "since", "body_formats"]
    case Album => ["body_formats", "count", "page", "since", "sort", "word"]
    case UpdateStatus => ["keyword", "status", "in_reply_to_status_id", "source", "files", "body_formats"]
    case ShowStatus => ["eid", "body_formats"]
    case DeleteStatus => ["eid", "author_url_name", "body_formats"]
    case AddStar => ["eid", "body_formats"]
    case RemoveStar => ["eid", "body_formats"]
    case ShowUser => ["url_name"]
    case ShowKeyword => ["word", "without_related_keywords"]
    case HotKeywords => ["without_related_keywords"]
    case KeywordList => ["page", "without_related_keywords", "word"]
    case AssociateKeywords => ["word1", "word2", "without_related_keywords"]
    case DissociateKeywords => ["word1", "word2", "without_related_keywords"]
    case Friends => ["url_name", "page"]
    case Followers => ["url_name", "page"]
    case AddFriend => ["url_name"]
    case RemoveFriend => ["url_name"]
    case FavoriteKeywords => ["url_name", "page", "without_related_keywords"]
    case AddFavoriteKeyword => ["word", "without_related_keywords"]
    case RemoveFavoriteKeyword => ["word", "without_related_keywords"]
  }

  function PathOf(e: Endpoint): PathRule {
    match e
    case PublicTimeline => Fixed("/statuses/public_timeline.json")
    case KeywordTimeline => Fixed("/statuses/keyword_timeline.json")
    case UserTimeline => OptionalName("/statuses/user_timeline")
    case FriendsTimeline => OptionalName("/statuses/friends_timeline")
    case Album => Fixed("/statuses/album.json")
    case UpdateStatus => Fixed("/statuses/update.json")
    case ShowStatus => Named("/statuses/show", "eid")
    case DeleteStatus => Named("/statuses/destroy", "eid")
    case AddStar => Named("/favorites/create", "eid")
    case RemoveStar => Named("/favorites/destroy", "eid")
    case ShowUser => OptionalName("/friendships/show")
    case ShowKeyword => Fixed("/keywords/show.json")
    case HotKeywords => Fixed("/keywords/hot.json")
    case KeywordList => Fixed("/keywords/list.json")
    case AssociateKeywords => Fixed("/keywords/relation/create.json")
    case DissociateKeywords => Fixed("/keywords/relation/destroy.json")
    case Friends => OptionalName("/statuses/friends")
    case Followers => OptionalName("/statuses/followers")
    case AddFriend => Named("/friendships/create", "url_name")
    case RemoveFriend => Named("/friendships/destroy", "url_name")
    case FavoriteKeywords => OptionalName("/statuses/keywords")
    case AddFavoriteKeyword => Fixed("/keywords/create.json")
    case RemoveFavoriteKeyword => Fixed("/keywords/destroy.json")
  }

  function VerbOf(e: Endpoint): Verb {
    if e in {UpdateStatus, DeleteStatus, AddStar, RemoveStar, AssociateKeywords, DissociateKeywords,
             AddFriend, RemoveFriend, AddFavoriteKeyword, RemoveFavoriteKeyword}
    then Post else Get
  }

  /** The keys `removed_dict(locals(), ...)` drops: `self` and whatever
      the path or the upload carries. */
  function RemovedKeys(e: Endpoint): set<string> {
    match PathOf(e)
    case OptionalName(_) => {"self", "url_name"}
    case Named(_, argument) => {"self", argument}
    case Fixed(_) => if e == UpdateStatus then {"self", "files"} else {"self"}
  }

  /** The endpoints that send no parameters at all. */
  predicate SendsNothing(e: Endpoint) {
    e in {ShowUser, AddFriend, RemoveFriend}
  }

  /** The arguments of one call, keyed by parameter name. */
  function Locals(e: Endpoint, args: seq<Value>): Dict<Value>
    requires |args| == |Parameters(e)|
  {
    DictOf(Parameters(e), args)
  }

  /** The value of a named argument of the call. */
  function Argument(e: Endpoint, args: seq<Value>, name: string): (v: Value)
    requires |args| == |Parameters(e)|
    ensures forall i :: 0 <= i < |args| && Parameters(e)[i] == name ==> v == args[i]
  {
    var d := Locals(e, args);
    match Lookup(d, name)
    case Some(v) => v
    case None => VNone
  }

  function Lookup(d: seq<(string, Value)>, name: string): (r: Option<Value>)
    ensures KeysDistinct(d) ==> forall i :: 0 <= i < |d| && d[i].0 == name ==> r == Some(d[i].1)
  {
    if d == [] then None
    else if d[0].0 == name then Some(d[0].1)
    else Lookup(d[1..], name)
  }

  /** `'{0}'.format(v)` for the values a path argument can hold. */
  function FormatValue(v: Value): (r: Result<string, Exception>)
    ensures v.VStr? ==> r == Success(v.s)
    ensures v.VInt? ==> r == Success(IntToDecimal(v.i))
  {
    match v
    case VNone => Success("None")
    case VBool(b) => Success(if b then "True" else "False")
    case VInt(i) => Success(IntToDecimal(i))
    case VStr(s) => Success(s)
    case _ => Failure(Builtin(Unmodelled, "str() of this value"))
  }

  /** The path an endpoint requests for the given arguments. */
  function EndpointPath(e: Endpoint, args: seq<Value>): (r: Result<string, Exception>)
    requires |args| == |Parameters(e)|
    ensures PathOf(e).Fixed? ==> r == Success(PathOf(e).path)
    ensures PathOf(e).OptionalName? && Argument(e, args, "url_name").VNone? ==> r == Success(PathOf(e).base + ".json")
    ensures PathOf(e).OptionalName? && !Argument(e, args, "url_name").VNone? ==>
      var text := FormatValue(Argument(e, args, "url_name"));
      r == if text.Success? then Success(PathOf(e).base + "/" + text.value + ".json") else Failure(text.error)
    ensures PathOf(e).Named? ==>
      var text := FormatValue(Argument(e, args, PathOf(e).argument));
      r == if text.Success? then Success(PathOf(e).base + "/" + text.value + ".json") else Failure(text.error)
  {
    match PathOf(e)
    case Fixed(path) => Success(path)
    case OptionalName(base) =>
      var name := Argument(e, args, "url_name");
      if name.VNone? then Success(base + ".json")
      else
        var text :- FormatValue(name);
        Success(base + "/" + text + ".json")
    case Named(base, argument) =>
      var text :- FormatValue(Argument(e, args, argument));
      Success(base + "/" + text + ".json")
  }

  /** A numeric status id is formatted into the path as its decimal text:
      `show_status(123)` requests `/statuses/show/123.json`. */
  lemma {:induction false} NumericStatusPath(id: int, bodyFormats: Value)
    ensures EndpointPath(ShowStatus, [VInt(id), bodyFormats]) == Success("/statuses/show/" + IntToDecimal(id) + ".json")
  {
    assert Argument(ShowStatus, [VInt(id), bodyFormats], "eid") == VInt(id);
    assert "/statuses/show" + "/" + IntToDecimal(id) + ".json" == "/statuses/show/" + IntToDecimal(id) + ".json";
  }

  /** `[('file', f) for f in files]`, or None. */
  function FilePairs(files: Value): (r: Result<Option<seq<(string, Value)>>, Exception>)
    ensures files.VNone? ==> r == Success(None)
    ensures files.VSeq? ==> r.Success? && r.value.Some? && |r.value.value| == |files.items|
    ensures files.VSeq? ==> forall i :: 0 <= i < |files.items| ==> r.value.value[i] == ("file", files.items[i])
    ensures files.VBytes? ==> r.Success? && r.value.Some? && |r.value.value| == |files.bytes|
    ensures files.VBytes? ==> forall i :: 0 <= i < |files.bytes| ==> r.value.value[i] == ("file", VInt(files.bytes[i] as int))
    ensures (files.VBool? || files.VInt? || files.VDateTime?) ==> r.Failure? && r.error.Builtin? && r.error.kind == TypeError
  {
    match files
    case VNone => Success(None)
    case VSeq(items) => Success(Some(seq(|items|, i requires 0 <= i < |items| => ("file", items[i]))))
    case VStr(s) => Success(Some(seq(|s|, i requires 0 <= i < |s| => ("file", VStr([s[i]])))))
    case VBytes(b) => Success(Some(seq(|b|, i requires 0 <= i < |b| => ("file", VInt(b[i] as int)))))
    case _ => Failure(Builtin(TypeError, "object is not iterable"))
  }

  /** What one endpoint call sends: the query parameters, the form data and
      the files. `update_status` posts its parameters as form data, three
      endpoints send nothing, the rest send their parameters as the query. */
  datatype Payload = Payload(params: Params, data: Params, files: Option<seq<(string, Value)>>)

  function PayloadOf(e: Endpoint, args: seq<Value>): (r: Result<Payload, Exception>)
    requires |args| == |Parameters(e)|
    ensures SendsNothing(e) ==> r == Success(Payload(NoParams, NoParams, None))
    ensures e == UpdateStatus ==> (r.Success? <==> FilePairs(Argument(e, args, "files")).Success?)
    ensures r.Success? && e == UpdateStatus ==>
      r.value == Payload(NoParams, Mapping(RemovedDict(Locals(e, args), RemovedKeys(e))),
                         FilePairs(Argument(e, args, "files")).value)
    ensures e != UpdateStatus && !SendsNothing(e) ==>
      r == Success(Payload(Mapping(RemovedDict(Locals(e, args), RemovedKeys(e))), NoParams, None))
  {
    var kept := RemovedDict(Locals(e, args), RemovedKeys(e));
    if SendsNothing(e) then Success(Payload(NoParams, NoParams, None))
    else if e == UpdateStatus then
      var files :- FilePairs(Argument(e, args, "files"));
      Success(Payload(NoParams, Mapping(kept), files))
    else Success(Payload(Mapping(kept), NoParams, None))
  }

  /** The parameters a call sends, as query or as form data. */
  function Sent(p: Payload): Params {
    if p.data.Mapping? then p.data else p.params
  }

  /** A path argument is never sent as a parameter, nor are `self` and the
      files of an upload; every other argument is, with its value. */
  lemma {:induction false} PayloadKeys(e: Endpoint, args: seq<Value>)
    requires |args| == |Parameters(e)|
    requires PayloadOf(e, args).Success? && !SendsNothing(e)
    ensures Sent(PayloadOf(e, args).value).Mapping?
    ensures var sent := Sent(PayloadOf(e, args).value).dic;
      && (PathOf(e).OptionalName? ==> "url_name" !in KeySet(sent))
      && (PathOf(e).Named? ==> PathOf(e).argument !in KeySet(sent))
      && "self" !in KeySet(sent)
      && (e == UpdateStatus ==> "files" !in KeySet(sent))
      && (forall i :: 0 <= i < |args| && Parameters(e)[i] !in RemovedKeys(e) ==>
            (Parameters(e)[i], args[i]) in sent)
  {
    var d := Locals(e, args);
    var kept := RemovedDict(d, RemovedKeys(e));
    assert Sent(PayloadOf(e, args).value) == Mapping(kept);
    RemovedDictKeeps(Parameters(e), args, RemovedKeys(e));
    RemovedKeysHave(e);
    assert KeySet(kept) == KeySet(d) - RemovedKeys(e);
  }

  /** `self`, the path argument and the files of an upload are removed. */
  lemma RemovedKeysHave(e: Endpoint)
    ensures "self" in RemovedKeys(e)
    ensures PathOf(e).OptionalName? ==> "url_name" in RemovedKeys(e)
    ensures PathOf(e).Named? ==> PathOf(e).argument in RemovedKeys(e)
    ensures e == UpdateStatus ==> "files" in RemovedKeys(e)
  {
  }

  // ---------------------------------------------------------------------
  // Responses

  /** What an endpoint method returns. `ListConverter` is the function
      `types.list_of(...)` itself, not applied to anything. */
  datatype RecordKind = UserRecord | KeywordRecord
  datatype Response =
    | Statuses(statuses: seq<Status>)
    | OneStatus(status: Status)
    | OneUser(user: User)
    | Users(users: seq<User>)
    | OneKeyword(keyword: Keyword)
    | Keywords(keywords: seq<Keyword>)
    | ListConverter(kind: RecordKind)

  /** What an endpoint builds from its response. */
  datatype Reading = ReadStatuses | ReadStatus | ReadUser | ReadUsers | ReadKeyword | ReadKeywords

  function ReadingOf(e: Endpoint): Reading {
    match e
    case PublicTimeline | KeywordTimeline | UserTimeline | FriendsTimeline | Album => ReadStatuses
    case UpdateStatus | ShowStatus | DeleteStatus | AddStar | RemoveStar => ReadStatus
    case ShowUser | AddFriend | RemoveFriend => ReadUser
    case Friends | Followers => ReadUsers
    case HotKeywords | KeywordList | FavoriteKeywords => ReadKeywords
    case ShowKeyword | AssociateKeywords | DissociateKeywords | AddFavoriteKeyword | RemoveFavoriteKeyword
      => ReadKeyword
  }

  /** `list_of(Status)(res)`, `Status(res)`, `User(res)` and so on. */
  function Read(reading: Reading, res: Json): (r: Result<Response, Exception>)
    ensures r.Success? ==> !r.value.ListConverter?
    ensures reading == ReadStatuses ==> (r.Success? <==> ListOf(BuildStatus, res).Success?)
    ensures reading == ReadStatus ==> (r.Success? <==> BuildStatus(res).Success?)
    ensures reading == ReadUser ==> (r.Success? <==> BuildUser(res).Success?)
    ensures reading == ReadUsers ==> (r.Success? <==> ListOf(BuildUser, res).Success?)
    ensures reading == ReadKeyword ==> (r.Success? <==> BuildKeyword(res).Success?)
    ensures reading == ReadKeywords ==> (r.Success? <==> ListOf(BuildKeyword, res).Success?)
  {
    match reading
    case ReadStatuses =>
      var statuses :- ListOf(BuildStatus, res);
      Success(Statuses(statuses))
    case ReadStatus =>
      var status :- BuildStatus(res);
      Success(OneStatus(status))
    case ReadUser =>
      var user :- BuildUser(res);
      Success(OneUser(user))
    case ReadUsers =>
      var users :- ListOf(BuildUser, res);
      Success(Users(users))
    case ReadKeywords =>
      var keywords :- ListOf(BuildKeyword, res);
      Success(Keywords(keywords))
    case ReadKeyword =>
      var keyword :- BuildKeyword(res);
      Success(OneKeyword(keyword))
  }

  /** How each endpoint reads its response, as intended: `friends` and
      `followers` read a list of users and `favorite_keywords` a list of
      keywords, like every other list endpoint. */
  function Finish(e: Endpoint, res: Json): (r: Result<Response, Exception>)
    ensures r.Success? ==> !r.value.ListConverter?
  {
    Read(ReadingOf(e), res)
  }

  /** How each endpoint reads its response as haiker/api.py is written:
      `friends`, `followers` and `favorite_keywords` return the converter
      `list_of(User)` / `list_of(Keyword)` without applying it. */
  function FinishAsWritten(e: Endpoint, res: Json): (r: Result<Response, Exception>)
    ensures e !in {Friends, Followers, FavoriteKeywords} ==> r == Finish(e, res)
  {
    if e in {Friends, Followers} then Success(ListConverter(UserRecord))
    else if e == FavoriteKeywords then Success(ListConverter(KeywordRecord))
    else Finish(e, res)
  }

  /** As written, those three endpoints succeed on any response at all, even
      one that is not a list, and return no user or keyword from it. */
  lemma {:induction false} FinishAsWrittenIgnoresResponse(e: Endpoint, res: Json)
    requires e in {Friends, Followers, FavoriteKeywords}
    ensures FinishAsWritten(e, res).Success? && FinishAsWritten(e, res).value.ListConverter?
    ensures FinishAsWritten(e, res) == FinishAsWritten(e, JNull)
    ensures Finish(e, JNull).Failure?
  {
  }

  function StatusesJson(statuses: seq<Status>): Json {
    JList(seq(|statuses|, i requires 0 <= i < |statuses| => StatusJson(statuses[i])))
  }

  function UsersJson(users: seq<User>): Json {
    JList(seq(|users|, i requires 0 <= i < |users| => UserJson(users[i])))
  }

  function KeywordsJson(keywords: seq<Keyword>): Json {
    JList(seq(|keywords|, i requires 0 <= i < |keywords| => KeywordJson(keywords[i])))
  }

  lemma {:induction false} ReadsStatuses(statuses: seq<Status>)
    ensures ListOf(BuildStatus, StatusesJson(statuses)) == Success(statuses)
  {
    var xs := StatusesJson(statuses).items;
    forall i | 0 <= i < |statuses| ensures BuildStatus(xs[i]) == Success(statuses[i]) {
      BuildStatusJson(statuses[i]);
    }
    var r := MapEach(BuildStatus, xs);
    assert r.Success? && r.value == statuses;
  }

  lemma {:induction false} ReadsUsers(users: seq<User>)
    ensures ListOf(BuildUser, UsersJson(users)) == Success(users)
  {
    var xs := UsersJson(users).items;
    forall i | 0 <= i < |users| ensures BuildUser(xs[i]) == Success(users[i]) {
      BuildUserJson(users[i]);
    }
    var r := MapEach(BuildUser, xs);
    assert r.Success? && r.value == users;
  }

  lemma {:induction false} ReadsKeywords(keywords: seq<Keyword>)
    ensures ListOf(BuildKeyword, KeywordsJson(keywords)) == Success(keywords)
  {
    var xs := KeywordsJson(keywords).items;
    forall i | 0 <= i < |keywords| ensures BuildKeyword(xs[i]) == Success(keywords[i]) {
      BuildKeywordJson(keywords[i]);
    }
    var r := MapEach(BuildKeyword, xs);
    assert r.Success? && r.value == keywords;
  }

  lemma {:induction false} ReadStatusesList(res: Json, statuses: seq<Status>)
    requires ListOf(BuildStatus, res) == Success(statuses)
    ensures Read(ReadStatuses, res) == Success(Statuses(statuses))
  {
  }

  lemma {:induction false} ReadUsersList(res: Json, users: seq<User>)
    requires ListOf(BuildUser, res) == Success(users)
    ensures Read(ReadUsers, res) == Success(Users(users))
  {
  }

  lemma {:induction false} ReadKeywordsList(res: Json, keywords: seq<Keyword>)
    requires ListOf(BuildKeyword, res) == Success(keywords)
    ensures Read(ReadKeywords, res) == Success(Keywords(keywords))
  {
  }

  /** Every timeline endpoint returns the entries its response lists. */
  lemma {:induction false} FinishReadsStatuses(e: Endpoint, statuses: seq<Status>)
    requires ReadingOf(e) == ReadStatuses
    ensures Finish(e, StatusesJson(statuses)) == Success(Statuses(statuses))
    ensures FinishAsWritten(e, StatusesJson(statuses)) == Success(Statuses(statuses))
  {
    ReadsStatuses(statuses);
    ReadStatusesList(StatusesJson(statuses), statuses);
  }

  /** Every endpoint that answers with one entry returns that entry. */
  lemma {:induction false} FinishReadsStatus(e: Endpoint, status: Status)
    requires ReadingOf(e) == ReadStatus
    ensures Finish(e, StatusJson(status)) == Success(OneStatus(status))
    ensures FinishAsWritten(e, StatusJson(status)) == Success(OneStatus(status))
  {
    BuildStatusJson(status);
  }

  /** Every endpoint that answers with one user returns that user. */
  lemma {:induction false} FinishReadsUser(e: Endpoint, user: User)
    requires ReadingOf(e) == ReadUser
    ensures Finish(e, UserJson(user)) == Success(OneUser(user))
    ensures FinishAsWritten(e, UserJson(user)) == Success(OneUser(user))
  {
    BuildUserJson(user);
  }

  /** Every endpoint that answers with one keyword returns that keyword. */
  lemma {:induction false} FinishReadsKeyword(e: Endpoint, keyword: Keyword)
    requires ReadingOf(e) == ReadKeyword
    ensures Finish(e, KeywordJson(keyword)) == Success(OneKeyword(keyword))
    ensures FinishAsWritten(e, KeywordJson(keyword)) == Success(OneKeyword(keyword))
  {
    BuildKeywordJson(keyword);
  }

  /** As intended, `friends` and `followers` return the users the response
      lists. */
  lemma {:induction false} FinishReadsUsers(e: Endpoint, users: seq<User>)
    requires ReadingOf(e) == ReadUsers
    ensures Finish(e, UsersJson(users)) == Success(Users(users))
  {
    ReadsUsers(users);
    ReadUsersList(UsersJson(users), users);
  }

  /** As intended, `hot_keywords`, `keyword_list` and `favorite_keywords`
      return the keywords the response lists; as written, the first two do. */
  lemma {:induction false} FinishReadsKeywords(e: Endpoint, keywords: seq<Keyword>)
    requires ReadingOf(e) == ReadKeywords
    ensures Finish(e, KeywordsJson(keywords)) == Success(Keywords(keywords))
    ensures e != FavoriteKeywords ==> FinishAsWritten(e, KeywordsJson(keywords)) == Success(Keywords(keywords))
  {
    ReadsKeywords(keywords);
    ReadKeywordsList(KeywordsJson(keywords), keywords);
  }

  /** One endpoint call, undecorated, as haiker/api.py is written: path,
      payload, request, then the reading of `FinishAsWritten`. */
  function Perform(e: Endpoint, args: seq<Value>, auth: Auth, root: string, userAgent: string,
                   transport: Transport): (r: Result<Response, Exception>)
    requires |args| == |Parameters(e)|
    ensures (PayloadOf(e, args).Success? && EndpointPath(e, args).Success? &&
             !AcceptedPath(EndpointPath(e, args).value)) ==> r == Failure(SuspiciousPath(EndpointPath(e, args).value))
    ensures r.Success? ==> (r.value.ListConverter? <==> e in {Friends, Followers, FavoriteKeywords})
  {
    var payload :- PayloadOf(e, args);
    var path :- EndpointPath(e, args);
    var p := payload;
    var res :- Send(Prepare(auth, root, userAgent, VerbOf(e), path, p.params, p.data, p.files), transport);
    FinishAsWritten(e, res)
  }

  /** A GET endpoint sends no form data and no files. */
  lemma {:induction false} GetSendsQuery(e: Endpoint, args: seq<Value>)
    requires |args| == |Parameters(e)|
    requires VerbOf(e) == Get && PayloadOf(e, args).Success?
    ensures PayloadOf(e, args).value.data == NoParams && PayloadOf(e, args).value.files == None
  {
    assert e != UpdateStatus;
  }

  /** `Haiker`: the API facade over one handler. */
  class Haiker {
    var handler: BaseApiHandler

    /** `Haiker(auth, user_agent=..., root=...)`. */
    constructor(auth: Auth, userAgent: string, root: string)
      ensures fresh(handler)
      ensures handler.auth == auth && handler.root == root && handler.userAgent == userAgent
    {
      handler := new BaseApiHandler(auth, root, userAgent);
    }

    /** The `auth` property: the handler's credentials. */
    function Auth(): Auth
      reads this, handler
    {
      handler.auth
    }

    /** The `auth` setter: it updates the handler in place and nothing else. */
    method SetAuth(value: Auth)
      modifies handler
      ensures handler.auth == value && Auth() == value
      ensures handler.root == old(handler.root) && handler.userAgent == old(handler.userAgent)
    {
      handler.auth := value;
    }

    /** An endpoint method, decorated with `HaikerError.replace`. */
    method Call(e: Endpoint, args: seq<Value>, transport: Transport) returns (o: Outcome<Response>)
      requires |args| == |Parameters(e)|
      ensures o == Replace(OutcomeOf(Perform(e, args, handler.auth, handler.root, handler.userAgent, transport)))
      ensures o.Raised? ==> o.error.HaikerError?
      ensures o.Returned? ==> (o.value.ListConverter? <==> e in {Friends, Followers, FavoriteKeywords})
    {
      var payload := PayloadOf(e, args);
      var path := EndpointPath(e, args);
      var r: Result<Response, Exception>;
      if payload.Failure? {
        r := Failure(payload.error);
      } else if path.Failure? {
        r := Failure(path.error);
      } else {
        var p := payload.value;
        var res;
        if VerbOf(e) == Get {
          GetSendsQuery(e, args);
          res := handler.Fetch(path.value, p.params, transport);
        } else {
          res := handler.Submit(path.value, p.params, p.data, p.files, transport);
        }
        if res.Failure? {
          r := Failure(res.error);
        } else {
          r := FinishAsWritten(e, res.value);
        }
      }
      o := Replace(OutcomeOf(r));
    }
  }

  /** Setting `api.auth` is seen through both `api.auth` and the handler. */
  method AuthProperty(first: Auth, second: Auth) returns (before: Auth, after: Auth, inHandler: Auth)
    ensures before == first && after == second && inHandler == second
  {
    var api := new Haiker(first, DefaultUserAgent, DefaultRoot);
    before := api.Auth();
    api.SetAuth(second);
    after := api.Auth();
    inHandler := api.handler.auth;
  }
}
