/**
 * The metrics middleware of internal/middleware/metrics.go: the path
 * normalisation that groups requests under one key (IDs folded into ":id"),
 * the key format method_path_status and its parser, the nine event counters,
 * and the per-request bookkeeping. The process-wide Metrics value is a class
 * whose maps and counters the methods update in place.
 */
module RequestMetrics {
  import opened Wrappers
  import opened Text
  import opened ObjectIds
  import opened ResponseWriters

  /**
   * splitPath: the non-empty runs between '/' characters, in order. The result
   * is the reference splitter Runs, so no segment is empty or holds a '/', and
   * no character other than '/' is lost.
   */
  method SplitPath(path: string) returns (result: seq<string>)
    ensures result == Runs(path, IsSlash)
    ensures ProperSegments(result, IsSlash)
    ensures Concat(result) == Strip(path, IsSlash)
  {
    result := [];
    var current := "";
    var i := 0;
    assert current + path[i..] == path;
    while i < |path|
      invariant 0 <= i <= |path|
      invariant SeparatorFree(current, IsSlash)
      invariant result + Runs(current + path[i..], IsSlash) == Runs(path, IsSlash)
    {
      SplitStep(current, path[i..]);
      assert path[i..][1..] == path[i + 1..];
      if path[i] == '/' {
        if current != "" {
          result := result + [current];
          current := "";
        }
      } else {
        current := current + [path[i]];
      }
      i := i + 1;
    }
    assert current + path[i..] == current;
    if current != "" {
      RunsOfFreePrefix(current, [], IsSlash);
      assert current + [] == current;
      result := result + [current];
    }
    RunsAreProper(path, IsSlash);
    RunsKeepEveryCharacter(path, IsSlash);
  }

  /** One character of splitPath's loop: a '/' closes the current segment, anything else extends it. */
  lemma SplitStep(current: string, rest: string)
    requires rest != [] && SeparatorFree(current, IsSlash)
    ensures rest[0] == '/' && current != [] ==>
      Runs(current + rest, IsSlash) == [current] + Runs("" + rest[1..], IsSlash)
    ensures rest[0] == '/' && current == [] ==>
      Runs(current + rest, IsSlash) == Runs(current + rest[1..], IsSlash)
    ensures rest[0] != '/' ==>
      Runs(current + rest, IsSlash) == Runs((current + [rest[0]]) + rest[1..], IsSlash)
  {
    if rest[0] == '/' {
      if current != [] {
        RunsOfFreePrefix(current, rest, IsSlash);
        assert Runs(rest, IsSlash) == Runs(rest[1..], IsSlash);
        assert "" + rest[1..] == rest[1..];
      } else {
        assert current + rest == rest;
        assert current + rest[1..] == rest[1..];
      }
    } else {
      assert current + rest == (current + [rest[0]]) + rest[1..];
    }
  }

  /** Hexadecimal digits are ASCII, so a string of them has one byte per character. */
  lemma HexStringByteLength(s: string)
    ensures (forall k | 0 <= k < |s| :: IsHexDigit(s[k])) ==> Utf8Len(s) == |s|
  {
    if forall k | 0 <= k < |s| :: IsHexDigit(s[k]) {
      assert forall k | 0 <= k < |s| :: s[k] as int < 0x80;
      Utf8LenBounds(s);
    }
  }

  /**
   * isID: the byte length is 24 and every character is a hexadecimal digit of
   * either case, which is exactly the ObjectID hex form.
   */
  method IsId(s: string) returns (b: bool)
    ensures b <==> IsObjectIdHex(s)
  {
    HexStringByteLength(s);
    if Utf8Len(s) == 24 {
      var i := 0;
      while i < |s|
        invariant 0 <= i <= |s|
        invariant forall k | 0 <= k < i :: IsHexDigit(s[k])
      {
        var c := s[i];
        if !(('0' <= c <= '9') || ('a' <= c <= 'f') || ('A' <= c <= 'F')) {
          return false;
        }
        i := i + 1;
      }
      return true;
    }
    return false;
  }

  /** The placeholder an ID segment is replaced by. */
  const IdPlaceholder: string := ":id"

  function NormalizeSegment(seg: string): string {
    if IsObjectIdHex(seg) then IdPlaceholder else seg
  }

  function NormalizeSegments(segs: seq<string>): (r: seq<string>)
    ensures |r| == |segs|
  {
    seq(|segs|, k requires 0 <= k < |segs| => NormalizeSegment(segs[k]))
  }

  /** normalizePathForMetrics: "/" and each normalised segment, or "/" alone when there is none. */
  function NormalizedPath(path: string): string {
    var segs := NormalizeSegments(Runs(path, IsSlash));
    if segs == [] then "/" else PrefixJoin(segs, '/')
  }

  /** normalizePathForMetrics, with its two loops. */
  method NormalizePathForMetrics(path: string) returns (r: string)
    ensures r == NormalizedPath(path)
  {
    var parts := SplitPath(path);
    var segments: seq<string> := [];
    var k := 0;
    while k < |parts|
      invariant 0 <= k <= |parts|
      invariant |segments| == k
      invariant forall j | 0 <= j < k :: segments[j] == NormalizeSegment(parts[j])
    {
      var isId := IsId(parts[k]);
      segments := segments + [if isId then IdPlaceholder else parts[k]];
      k := k + 1;
    }
    assert segments == NormalizeSegments(parts);
    if |segments| == 0 {
      return "/";
    }
    r := "";
    var j := 0;
    while j < |segments|
      invariant 0 <= j <= |segments|
      invariant r == PrefixJoin(segments[..j], '/')
    {
      PrefixJoinSnoc(segments[..j], segments[j], '/');
      assert segments[..j + 1] == segments[..j] + [segments[j]];
      r := r + "/" + segments[j];
      j := j + 1;
    }
    assert segments[..j] == segments;
  }

  /** The placeholder is not itself an ID, so normalising a normalised segment changes nothing. */
  lemma NormalizeSegmentsFixed(segs: seq<string>)
    ensures NormalizeSegments(NormalizeSegments(segs)) == NormalizeSegments(segs)
  {
    assert !IsObjectIdHex(IdPlaceholder);
  }

  /** Normalising keeps a splitter's segments proper: ":id" is non-empty and has no '/'. */
  lemma NormalizeSegmentsProper(segs: seq<string>)
    requires ProperSegments(segs, IsSlash)
    ensures ProperSegments(NormalizeSegments(segs), IsSlash)
  {
    var r := NormalizeSegments(segs);
    forall k | 0 <= k < |r|
      ensures r[k] != [] && SeparatorFree(r[k], IsSlash)
    {
      if IsObjectIdHex(segs[k]) {
        assert r[k] == IdPlaceholder;
      } else {
        assert r[k] == segs[k];
      }
    }
  }

  /**
   * The normalised path starts with '/' and splits into the normalised segments
   * of the original path: IDs replaced, everything else kept in order.
   */
  lemma NormalizedPathSegments(path: string)
    ensures var n := NormalizedPath(path);
      n != [] && n[0] == '/' && Runs(n, IsSlash) == NormalizeSegments(Runs(path, IsSlash))
  {
    var segs := NormalizeSegments(Runs(path, IsSlash));
    RunsAreProper(path, IsSlash);
    NormalizeSegmentsProper(Runs(path, IsSlash));
    if segs == [] {
      assert Runs("/", IsSlash) == Runs("", IsSlash);
    } else {
      RunsOfPrefixJoin(segs, '/', IsSlash);
    }
  }

  /** normalizePathForMetrics is idempotent. */
  lemma NormalizedPathIdempotent(path: string)
    ensures NormalizedPath(NormalizedPath(path)) == NormalizedPath(path)
  {
    NormalizedPathSegments(path);
    NormalizeSegmentsFixed(Runs(path, IsSlash));
  }

  /**
   * The position of the first '_' in s, or -1 when there is none: the first
   * variable of parseKey after its loop has read s.
   */
  function FirstMark(s: string): (f: int)
    ensures -1 <= f < |s|
    ensures f == -1 <==> forall k | 0 <= k < |s| :: s[k] != '_'
    ensures f >= 0 ==> s[f] == '_' && forall k | 0 <= k < f :: s[k] != '_'
  {
    if s == [] then -1
    else
      var f := FirstMark(s[..|s| - 1]);
      if f == -1 && s[|s| - 1] == '_' then |s| - 1 else f
  }

  /**
   * The last variable of parseKey after its loop has read s: the position of
   * the last '_' when s holds at least two, and -1 otherwise.
   */
  function LastMark(s: string): (l: int)
    ensures -1 <= l < |s|
    ensures l >= 0 ==> FirstMark(s) < l && s[l] == '_' && forall k | l < k < |s| :: s[k] != '_'
    ensures l == -1 ==> forall k | FirstMark(s) < k < |s| :: s[k] != '_'
  {
    if s == [] then -1
    else
      var p := s[..|s| - 1];
      assert forall k | 0 <= k < |p| :: p[k] == s[k];
      if s[|s| - 1] == '_' && FirstMark(p) != -1 then |s| - 1 else LastMark(p)
  }

  /** What parseKey returns: the parts around the first and the last '_', or three empty strings. */
  function ParsedKey(key: string): (string, string, string) {
    var first := FirstMark(key);
    var last := LastMark(key);
    if first > 0 && last > first then (key[..first], key[first + 1..last], key[last + 1..])
    else ("", "", "")
  }

  /** parseKey, with its loop over the key. */
  method ParseKey(key: string) returns (httpMethod: string, path: string, status: string)
    ensures (httpMethod, path, status) == ParsedKey(key)
  {
    var first, last := -1, -1;
    var i := 0;
    while i < |key|
      invariant 0 <= i <= |key|
      invariant first == FirstMark(key[..i]) && last == LastMark(key[..i])
    {
      assert key[..i + 1][..i] == key[..i];
      if key[i] == '_' {
        if first == -1 {
          first := i;
        } else {
          last := i;
        }
      }
      i := i + 1;
    }
    assert key[..i] == key;
    httpMethod, path, status := "", "", "";
    if first > 0 && last > first {
      httpMethod := key[..first];
      path := key[first + 1..last];
      status := key[last + 1..];
    }
  }

  /**
   * A key built from a non-empty method and a status without '_' parses back
   * into its three parts, whatever the middle part holds.
   */
  lemma ParseKeyRoundTrip(m: string, p: string, s: string)
    requires m != [] && '_' !in m && '_' !in s
    ensures ParsedKey(m + "_" + p + "_" + s) == (m, p, s)
  {
    var key := m + "_" + p + "_" + s;
    var a, b := |m|, |m| + 1 + |p|;
    assert key[a] == '_' && key[b] == '_';
    assert forall k | 0 <= k < a :: key[k] == m[k];
    assert forall k | b < k < |key| :: key[k] == s[k - b - 1];
    assert FirstMark(key) == a;
    assert LastMark(key) == b;
    assert key[..a] == m;
    assert key[a + 1..b] == p;
    assert key[b + 1..] == s;
  }

  /** A key with fewer than two '_', or one that starts with '_', parses to three empty strings. */
  lemma ParseKeyRejects(key: string)
    requires (key != [] && key[0] == '_') || forall i, j | 0 <= i < j < |key| :: key[i] != '_' || key[j] != '_'
    ensures ParsedKey(key) == ("", "", "")
  {
    if key != [] && key[0] == '_' {
      assert FirstMark(key) == 0;
    } else {
      assert LastMark(key) == -1;
    }
  }

  /** The key MetricsMiddleware files a request under. */
  function MetricKey(httpMethod: string, path: string, status: int): string {
    httpMethod + "_" + NormalizedPath(path) + "_" + Itoa(status)
  }

  /** Every key the middleware builds parses back into its method, normalised path and status. */
  lemma MetricKeyParses(httpMethod: string, path: string, status: int)
    requires httpMethod != [] && '_' !in httpMethod
    ensures ParsedKey(MetricKey(httpMethod, path, status)) == (httpMethod, NormalizedPath(path), Itoa(status))
  {
    ParseKeyRoundTrip(httpMethod, NormalizedPath(path), Itoa(status));
  }

  /** The event counters of the Metrics struct. */
  datatype Counter =
    | UsersRegistered | LoginSuccess | LoginFailed | AuthErrors | ProfileUpdates | AvatarUploads
    | PostsCreated | PostsUpdated | PostsDeleted

  datatype Counters = Counters(
    usersRegistered: int, usersLoginSuccess: int, usersLoginFailed: int, authErrors: int,
    profileUpdates: int, avatarUploads: int, postsCreated: int, postsUpdated: int, postsDeleted: int)

  const NoCounts: Counters := Counters(0, 0, 0, 0, 0, 0, 0, 0, 0)

  function Get(k: Counters, c: Counter): int {
    match c
    case UsersRegistered => k.usersRegistered
    case LoginSuccess => k.usersLoginSuccess
    case LoginFailed => k.usersLoginFailed
    case AuthErrors => k.authErrors
    case ProfileUpdates => k.profileUpdates
    case AvatarUploads => k.avatarUploads
    case PostsCreated => k.postsCreated
    case PostsUpdated => k.postsUpdated
    case PostsDeleted => k.postsDeleted
  }

  /** One Inc* call: its own counter goes up by one and every other counter keeps its value. */
  function Bump(k: Counters, c: Counter): (r: Counters)
    ensures Get(r, c) == Get(k, c) + 1
    ensures forall d | d != c :: Get(r, d) == Get(k, d)
  {
    match c
    case UsersRegistered => k.(usersRegistered := k.usersRegistered + 1)
    case LoginSuccess => k.(usersLoginSuccess := k.usersLoginSuccess + 1)
    case LoginFailed => k.(usersLoginFailed := k.usersLoginFailed + 1)
    case AuthErrors => k.(authErrors := k.authErrors + 1)
    case ProfileUpdates => k.(profileUpdates := k.profileUpdates + 1)
    case AvatarUploads => k.(avatarUploads := k.avatarUploads + 1)
    case PostsCreated => k.(postsCreated := k.postsCreated + 1)
    case PostsUpdated => k.(postsUpdated := k.postsUpdated + 1)
    case PostsDeleted => k.(postsDeleted := k.postsDeleted + 1)
  }

  /** Bumps in any order give the same counts. */
  lemma BumpsCommute(k: Counters, c: Counter, d: Counter)
    ensures Bump(Bump(k, c), d) == Bump(Bump(k, d), c)
  {
  }

  /** The value a Go map yields for a key: the stored one, or the zero value. */
  function Find<V>(m: map<string, V>, key: string, zero: V): V {
    if key in m then m[key] else zero
  }

  /** The per-request part of the Metrics struct. */
  datatype Requests = Requests(
    total: map<string, int>, durations: map<string, seq<real>>, sizes: map<string, seq<int>>, active: int)

  /** The process-wide Metrics value (startTime and the mutex are left out). */
  class Metrics {
    var requestsTotal: map<string, int>
    var requestDuration: map<string, seq<real>>
    var responseSizes: map<string, seq<int>>
    var activeRequests: int
    var usersRegistered: int
    var usersLoginSuccess: int
    var usersLoginFailed: int
    var authErrors: int
    var profileUpdates: int
    var avatarUploads: int
    var postsCreated: int
    var postsUpdated: int
    var postsDeleted: int

    function Counts(): Counters
      reads this
    {
      Counters(usersRegistered, usersLoginSuccess, usersLoginFailed, authErrors,
        profileUpdates, avatarUploads, postsCreated, postsUpdated, postsDeleted)
    }

    function RequestData(): Requests
      reads this
    {
      Requests(requestsTotal, requestDuration, responseSizes, activeRequests)
    }

    /** The initial value of the metrics variable: empty maps and zero counts. */
    constructor ()
      ensures RequestData() == Requests(map[], map[], map[], 0)
      ensures Counts() == NoCounts
    {
      requestsTotal, requestDuration, responseSizes, activeRequests := map[], map[], map[], 0;
      usersRegistered, usersLoginSuccess, usersLoginFailed, authErrors := 0, 0, 0, 0;
      profileUpdates, avatarUploads := 0, 0;
      postsCreated, postsUpdated, postsDeleted := 0, 0, 0;
    }

    method IncUserRegistered()
      modifies this
      ensures Counts() == Bump(old(Counts()), UsersRegistered) && RequestData() == old(RequestData())
    {
      usersRegistered := usersRegistered + 1;
    }

    method IncLoginSuccess()
      modifies this
      ensures Counts() == Bump(old(Counts()), LoginSuccess) && RequestData() == old(RequestData())
    {
      usersLoginSuccess := usersLoginSuccess + 1;
    }

    method IncLoginFailed()
      modifies this
      ensures Counts() == Bump(old(Counts()), LoginFailed) && RequestData() == old(RequestData())
    {
      usersLoginFailed := usersLoginFailed + 1;
    }

    method IncAuthError()
      modifies this
      ensures Counts() == Bump(old(Counts()), AuthErrors) && RequestData() == old(RequestData())
    {
      authErrors := authErrors + 1;
    }

    method IncProfileUpdate()
      modifies this
      ensures Counts() == Bump(old(Counts()), ProfileUpdates) && RequestData() == old(RequestData())
    {
      profileUpdates := profileUpdates + 1;
    }

    method IncAvatarUpload()
      modifies this
      ensures Counts() == Bump(old(Counts()), AvatarUploads) && RequestData() == old(RequestData())
    {
      avatarUploads := avatarUploads + 1;
    }

    method IncPostCreated()
      modifies this
      ensures Counts() == Bump(old(Counts()), PostsCreated) && RequestData() == old(RequestData())
    {
      postsCreated := postsCreated + 1;
    }

    method IncPostUpdated()
      modifies this
      ensures Counts() == Bump(old(Counts()), PostsUpdated) && RequestData() == old(RequestData())
    {
      postsUpdated := postsUpdated + 1;
    }

    method IncPostDeleted()
      modifies this
      ensures Counts() == Bump(old(Counts()), PostsDeleted) && RequestData() == old(RequestData())
    {
      postsDeleted := postsDeleted + 1;
    }

    /** The bookkeeping after the handler returns: one more request, one duration and one size under key. */
    method Record(key: string, duration: real, size: int)
      modifies this
      ensures requestsTotal == old(requestsTotal)[key := Find(old(requestsTotal), key, 0) + 1]
      ensures requestDuration == old(requestDuration)[key := Find(old(requestDuration), key, []) + [duration]]
      ensures responseSizes == old(responseSizes)[key := Find(old(responseSizes), key, []) + [size]]
      ensures activeRequests == old(activeRequests) && Counts() == old(Counts())
    {
      requestsTotal := requestsTotal[key := Find(requestsTotal, key, 0) + 1];
      requestDuration := requestDuration[key := Find(requestDuration, key, []) + [duration]];
      responseSizes := responseSizes[key := Find(responseSizes, key, []) + [size]];
    }

    /**
     * MetricsMiddleware around a handler that makes these writer calls and
     * takes this many seconds. /metrics itself is not recorded. Any other
     * request leaves activeRequests as it found it, adds one to its key's
     * count and appends one duration and one size under that key; the key
     * holds the status the wrapper recorded.
     */
    method ServeHTTP(httpMethod: string, path: string, calls: seq<WriterCall>, duration: real)
      modifies this
      ensures path == "/metrics" ==> RequestData() == old(RequestData())
      ensures path != "/metrics" ==>
        var key := MetricKey(httpMethod, path, FirstStatus(calls));
        && activeRequests == old(activeRequests)
        && requestsTotal == old(requestsTotal)[key := Find(old(requestsTotal), key, 0) + 1]
        && requestDuration == old(requestDuration)[key := Find(old(requestDuration), key, []) + [duration]]
        && responseSizes == old(responseSizes)[key := Find(old(responseSizes), key, []) + [TotalWritten(calls)]]
      ensures Counts() == old(Counts())
    {
      if path == "/metrics" {
        return;
      }
      activeRequests := activeRequests + 1;
      var rw := Wrap(calls);
      activeRequests := activeRequests - 1;
      var normalized := NormalizePathForMetrics(path);
      var key := httpMethod + "_" + normalized + "_" + Itoa(rw.status);
      assert key == MetricKey(httpMethod, path, FirstStatus(calls));
      Record(key, duration, rw.size);
    }
  }
}
