/** The request-handler cases of tests/test_api.py, stated on the model:
    the paths it accepts and rejects, and the URL it builds. */
module ApiExamples {
  import opened Wrappers
  import opened Exceptions
  import opened Utils
  import opened Types
  import opened Api

  /** One match of the pattern anywhere makes a path suspicious. */
  lemma {:induction false} RejectedAt(path: string, k: nat)
    requires k < |path| && MatchesAt(path, k)
    ensures !AcceptedPath(path)
  {
    SearchAccepts(path);
    assert SearchFrom(path, 0).Some?;
  }

  /** `'/get/{0}.json'.format(s)` for the four malicious strings of the
      tests is rejected. */
  lemma {:induction false} MaliciousPathsRejected(dots: string, slashes: string, wide: string, hash: string)
    requires dots == "/get/" + "../../malicious" + ".json"
    requires slashes == "/get/" + "////malicious" + ".json"
    requires wide == "/get/" + "Ａ" + ".json"
    requires hash == "/get/" + "# " + ".json"
    ensures !AcceptedPath(dots) && !AcceptedPath(slashes) && !AcceptedPath(wide) && !AcceptedPath(hash)
  {
    assert dots[5] == '.' && dots[6] == '.';
    RejectedAt(dots, 5);
    assert slashes[5] == '/' && slashes[6] == '/';
    RejectedAt(slashes, 5);
    assert !PathChar(wide[5]);
    RejectedAt(wide, 5);
    assert !PathChar(hash[5]);
    RejectedAt(hash, 5);
  }

  /** `'/get/Th1s-1S_N0rm4L.json'` is accepted. */
  lemma {:induction false} NormalPathAccepted(path: string)
    requires path == "/get/Th1s-1S_N0rm4L.json"
    ensures AcceptedPath(path)
  {
    SearchAccepts(path);
    NormalPathHead(path);
    NormalPathTail(path);
    assert SearchFrom(path, 0).None?;
  }

  lemma {:induction false} NormalPathHead(path: string)
    requires path == "/get/Th1s-1S_N0rm4L.json"
    ensures forall k :: 0 <= k < 12 ==> !MatchesAt(path, k)
  {
  }

  lemma {:induction false} NormalPathTail(path: string)
    requires path == "/get/Th1s-1S_N0rm4L.json"
    ensures forall k :: 12 <= k < |path| ==> !MatchesAt(path, k)
  {
  }

  /** The tests' root `'http://h.hatena.ne.jp/api/'` joined with any path
      `'/' + rest` has one slash between them: `'/get/method.json'` gives
      `'http://h.hatena.ne.jp/api/get/method.json'`. */
  lemma {:induction false} JoinedUrl(rest: string)
    requires rest == [] || rest[0] != '/'
    ensures JoinUrl("http://h.hatena.ne.jp/api" + "/", "/" + rest) == "http://h.hatena.ne.jp/api" + "/" + rest
  {
    assert Slashes(1) == "/";
    JoinUrlOneSlash("http://h.hatena.ne.jp/api", rest, 1, 1);
  }

  /** `get('/get/Th1s-1S_N0rm4L.json')` through the test's handler, with
      root `'http://h.hatena.ne.jp/api/'` and User-Agent `'TestUserAgent'`,
      reaches the transport at the joined URL; a malicious path raises
      ValueError before it. */
  method SuspiciousUrl(transport: Transport, auth: Auth, normalPath: string, maliciousPath: string)
    returns (normal: Result<Json, Exception>, malicious: Result<Json, Exception>)
    requires normalPath == "/get/Th1s-1S_N0rm4L.json"
    requires maliciousPath == "/get/" + "../../malicious" + ".json"
    ensures normal == transport(HttpRequest(Get, "http://h.hatena.ne.jp/api" + "/" + "get/Th1s-1S_N0rm4L.json",
                                            [("User-Agent", "TestUserAgent")], auth, None, None, None))
    ensures malicious.Failure? && malicious.error.Builtin? && malicious.error.kind == ValueError
  {
    var root := "http://h.hatena.ne.jp/api" + "/";
    var handler := new BaseApiHandler(auth, root, "TestUserAgent");
    NormalPathAccepted(normalPath);
    assert normalPath == "/" + "get/Th1s-1S_N0rm4L.json";
    JoinedUrl("get/Th1s-1S_N0rm4L.json");
    normal := handler.Fetch(normalPath, NoParams, transport);
    MaliciousPathsRejected(maliciousPath, "/get/" + "////malicious" + ".json", "/get/" + "Ａ" + ".json", "/get/" + "# " + ".json");
    malicious := handler.Fetch(maliciousPath, NoParams, transport);
  }
}
