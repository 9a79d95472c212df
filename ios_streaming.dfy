/**
 * The iOS `FlutterRTMPStreaming` publisher: how `open` splits the stream
 * url into the connection url and the stream name, the retry counter of
 * the RTMP status and error handlers with its doubling delay, and the
 * bitrate steps of the QoS delegate. The RTMP connection, the URL parser
 * and the event sink are collaborators; what the publisher asks of them
 * is recorded in order.
 */
module IosStreaming {
  import opened Base

  const MAX_RETRIES: int := 3
  const MIN_BITRATE: int := 300 * 1024
  const MAX_BITRATE: int := 2500 * 1024
  const INCREMENT_BITRATE: int := 512 * 1024
  const UINT32_LIMIT: int := 0x1_0000_0000

  // ---------------------------------------------------------------------
  // Splitting the url
  // ---------------------------------------------------------------------

  /** `components(separatedBy: "/")`: the pieces between slashes, never an empty list. */
  function Components(s: string): (parts: seq<string>)
    ensures |parts| >= 1
    ensures forall k :: 0 <= k < |parts| ==> '/' !in parts[k]
    decreases |s|
  {
    if '/' !in s then [s]
    else
      var i := FirstSlash(s, 0);
      [s[..i]] + Components(s[i + 1..])
  }

  /** The index of the first slash at or after `from`. */
  function FirstSlash(s: string, from: nat): (i: nat)
    requires from <= |s|
    requires '/' in s[from..]
    ensures from <= i < |s| && s[i] == '/' && '/' !in s[..i][from..]
    decreases |s| - from
  {
    if s[from] == '/' then from
    else
      assert s[from..] == [s[from]] + s[from + 1..];
      FirstSlash(s, from + 1)
  }

  /** `joined(separator: "/")`. */
  function Joined(parts: seq<string>): string
  {
    if parts == [] then "" else if |parts| == 1 then parts[0] else parts[0] + "/" + Joined(parts[1..])
  }

  /** Joining the pieces with slashes gives the string back. */
  lemma {:induction false} JoinedComponents(s: string)
    ensures Joined(Components(s)) == s
    decreases |s|
  {
    if '/' in s {
      var i := FirstSlash(s, 0);
      assert s[..i][0..] == s[..i];
      var rest := Components(s[i + 1..]);
      assert Components(s) == [s[..i]] + rest;
      JoinedCons(s[..i], rest);
      JoinedComponents(s[i + 1..]);
      assert s == s[..i] + "/" + s[i + 1..];
    }
  }

  /** Joining a piece in front of at least one more puts a slash between. */
  lemma JoinedCons(first: string, rest: seq<string>)
    requires |rest| >= 1
    ensures Joined([first] + rest) == first + "/" + Joined(rest)
  {
    assert ([first] + rest)[1..] == rest;
  }

  /** Joining all but the last piece, then the last with a slash, is joining them all. */
  lemma {:induction false} JoinedSnoc(parts: seq<string>)
    requires |parts| >= 2
    ensures Joined(parts[..|parts| - 1]) + "/" + parts[|parts| - 1] == Joined(parts)
    decreases |parts|
  {
    if |parts| > 2 {
      JoinedSnoc(parts[1..]);
      assert parts[1..][..|parts| - 2] == parts[..|parts| - 1][1..];
    }
  }

  /** The url `open` connects to: the input without its last `/` piece (empty when there is no slash). */
  function BaseUrl(url: string): string
  {
    var bits := Components(url);
    Joined(bits[..|bits| - 1])
  }

  /**
   * The connection url and the last piece put back together with a slash
   * give the input url, whenever it has a slash; the last piece has none.
   */
  lemma BaseUrlSplits(url: string)
    ensures var bits := Components(url);
      '/' !in bits[|bits| - 1] &&
      ('/' in url ==> BaseUrl(url) + "/" + bits[|bits| - 1] == url) &&
      ('/' !in url ==> BaseUrl(url) == "")
  {
    var bits := Components(url);
    if '/' in url {
      var i := FirstSlash(url, 0);
      assert |bits| >= 2;
      JoinedSnoc(bits);
      JoinedComponents(url);
    }
  }

  /** The stream name: the url path's last component, with the query appended after `?` when there is one. */
  function StreamName(pathLast: Option<string>, query: Option<string>): (name: Option<string>)
    ensures name.None? <==> pathLast.None?
    ensures name.Some? && query.None? ==> name.value == pathLast.value
    ensures name.Some? && query.Some? ==> name.value == pathLast.value + "?" + query.value
  {
    if pathLast.Some? && query.Some? then Some(pathLast.value + "?" + query.value) else pathLast
  }

  // ---------------------------------------------------------------------
  // Retries
  // ---------------------------------------------------------------------

  function Pow2(n: nat): (p: nat)
    ensures p >= 1
  {
    if n == 0 then 1 else 2 * Pow2(n - 1)
  }

  /** What a failure leads to: a reconnect after a delay in seconds, or giving up. */
  datatype Reaction = Retry(delaySeconds: nat) | GiveUp

  /** One failed or closed connection, given the retries so far: the new count and the reaction. */
  function FailureStep(retries: nat): (nat, Reaction)
  {
    if retries > MAX_RETRIES then (retries, GiveUp)
    else (retries + 1, Retry(Pow2(retries + 1)))
  }

  /** The reactions to `k` failures in a row. */
  function FailureRun(retries: nat, k: nat): seq<Reaction>
    decreases k
  {
    if k == 0 then []
    else
      var (r, a) := FailureStep(retries);
      [a] + FailureRun(r, k - 1)
  }

  /**
   * From a fresh count, consecutive failures are retried four times, the
   * n-th after 2^n seconds, and every later failure gives up.
   */
  lemma {:induction false} ConsecutiveFailures(retries: nat, k: nat)
    requires retries <= MAX_RETRIES + 1
    ensures |FailureRun(retries, k)| == k
    ensures forall i :: 0 <= i < k ==>
      FailureRun(retries, k)[i] == if retries + i <= MAX_RETRIES then Retry(Pow2(retries + i + 1)) else GiveUp
    decreases k
  {
    if k > 0 {
      var (r, a) := FailureStep(retries);
      if retries <= MAX_RETRIES {
        ConsecutiveFailures(r, k - 1);
      } else {
        GiveUpStays(retries, k - 1);
      }
    }
  }

  /** Past the limit, every failure gives up and the count stays. */
  lemma {:induction false} GiveUpStays(retries: nat, k: nat)
    requires retries > MAX_RETRIES
    ensures FailureRun(retries, k) == seq(k, i => GiveUp)
    decreases k
  {
    if k > 0 {
      GiveUpStays(retries, k - 1);
    }
  }

  // ---------------------------------------------------------------------
  // QoS bitrate
  // ---------------------------------------------------------------------

  /** Sufficient bandwidth: 512 kbit/s more, at most 2500 kbit/s; the unsigned 32-bit addition traps on overflow. */
  function Raised(bitrate: int): (r: Outcome<int>)
    requires 0 <= bitrate < UINT32_LIMIT
    ensures bitrate + INCREMENT_BITRATE >= UINT32_LIMIT <==> r.Threw?
    ensures r.Ok? ==> r.value == Min(bitrate + INCREMENT_BITRATE, MAX_BITRATE)
  {
    var sum := bitrate + INCREMENT_BITRATE;
    if sum >= UINT32_LIMIT then Threw(ArithmeticOverflow)
    else if sum > MAX_BITRATE then Ok(MAX_BITRATE) else Ok(sum)
  }

  /** Insufficient bandwidth: half, at least 300 kbit/s. */
  function Lowered(bitrate: int): (r: int)
    requires 0 <= bitrate < UINT32_LIMIT
    ensures r == Max(bitrate / 2, MIN_BITRATE)
    ensures 0 <= r < UINT32_LIMIT
  {
    var half := bitrate / 2;
    if half < MIN_BITRATE then MIN_BITRATE else half
  }

  /**
   * Once the bitrate is within 300..2500 kbit/s, both adjustments keep it
   * there; raising never lowers it and lowering never raises it.
   */
  lemma QosKeepsRange(bitrate: int)
    requires MIN_BITRATE <= bitrate <= MAX_BITRATE
    ensures Raised(bitrate).Ok? && MIN_BITRATE <= Raised(bitrate).value <= MAX_BITRATE
    ensures bitrate <= Raised(bitrate).value
    ensures MIN_BITRATE <= Lowered(bitrate) <= MAX_BITRATE && Lowered(bitrate) <= bitrate
  {
  }

  // ---------------------------------------------------------------------
  // Landscape video settings
  // ---------------------------------------------------------------------

  /** The video settings `open` writes for a landscape interface, as written: the width takes the height. */
  function LandscapeSizeAsWritten(width: int, height: int): (r: (int, int))
    ensures r.0 == r.1
  {
    (height, height)
  }

  /** The landscape video settings with width and height exchanged. */
  function LandscapeSize(width: int, height: int): (r: (int, int))
    ensures r.0 * r.1 == width * height && (r.0 == r.1 <==> width == height)
  {
    (height, width)
  }

  /** For a 1280x720 stream the settings as written become 720x720, where the exchange gives 720x1280. */
  lemma LandscapeSizeSquares()
    ensures LandscapeSizeAsWritten(1280, 720) == (720, 720)
    ensures LandscapeSize(1280, 720) == (720, 1280)
    ensures LandscapeSizeAsWritten(1280, 720) != LandscapeSize(1280, 720)
  {
  }

  // ---------------------------------------------------------------------
  // The publisher
  // ---------------------------------------------------------------------

  /** The RTMP status codes the handler reads (`Other` covers a missing or unhandled code). */
  datatype StatusCode = ConnectSuccess | ConnectFailed | ConnectClosed | Other

  /** What the publisher asks of the connection, or sends to the event sink. */
  datatype Action =
    | Connect(url: string, delaySeconds: nat)
    | Publish(name: Option<string>)
    | Send(event: string, description: string)

  class Publisher {
    var url: string
    var name: Option<string>
    var retries: nat
    var videoWidth: int
    var videoHeight: int
    /** The bitrate setting, when it reads as an unsigned 32-bit value. */
    var bitrate: Option<int>
    var actions: seq<Action>

    constructor()
      ensures retries == 0 && actions == [] && bitrate.None?
    {
      url := "";
      name := None;
      retries := 0;
      videoWidth := 0;
      videoHeight := 0;
      bitrate := None;
      actions := [];
    }

    /**
     * `open`: the name from the url's last path component and query, the
     * connection url without the last piece, the video settings (turned
     * for a landscape interface), a fresh retry count, then the connect.
     */
    method Open(streamUrl: string, pathLast: Option<string>, query: Option<string>,
                width: int, height: int, initialBitrate: int, landscape: bool)
      modifies this
      ensures name == StreamName(pathLast, query) && url == BaseUrl(streamUrl) && retries == 0
      ensures (videoWidth, videoHeight) == if landscape then LandscapeSize(width, height) else (width, height)
      ensures bitrate == if 0 <= initialBitrate < UINT32_LIMIT then Some(initialBitrate) else None
      ensures actions == old(actions) + [Connect(BaseUrl(streamUrl), 0)]
    {
      name := pathLast;
      if query.Some? && name.Some? {
        name := Some(name.value + "?" + query.value);
      }
      var bits := Components(streamUrl);
      bits := bits[..|bits| - 1];
      url := Joined(bits);
      videoWidth, videoHeight := width, height;
      bitrate := if 0 <= initialBitrate < UINT32_LIMIT then Some(initialBitrate) else None;
      retries := 0;
      if landscape {
        videoWidth, videoHeight := LandscapeSize(width, height).0, LandscapeSize(width, height).1;
      }
      actions := actions + [Connect(url, 0)];
    }

    /**
     * `rtmpStatusHandler`: success publishes and resets the count; a failed
     * or closed connection is retried while the count is at most 3 (after
     * 2^count seconds, with a retry event) and reported as an error after.
     */
    method RtmpStatusHandler(code: StatusCode, eventType: string)
      modifies this`retries, this`actions
      ensures code == ConnectSuccess ==> retries == 0 && actions == old(actions) + [Publish(name)]
      ensures code == Other ==> retries == old(retries) && actions == old(actions)
      ensures (code == ConnectFailed || code == ConnectClosed) ==>
        var (r, a) := FailureStep(old(retries));
        retries == r &&
        actions == old(actions) + match a
          case Retry(d) => [Connect(url, d), Send("rtmp_retry", "connection failed " + eventType)]
          case GiveUp => [Send("error", "connection failed " + eventType)]
    {
      match code
      case ConnectSuccess =>
        actions := actions + [Publish(name)];
        retries := 0;
      case ConnectFailed =>
        Reconnect("error", "connection failed " + eventType);
      case ConnectClosed =>
        Reconnect("error", "connection failed " + eventType);
      case Other =>
    }

    /** `rtmpErrorHandler`: the same retry rule, ending in a stopped event. */
    method RtmpErrorHandler()
      modifies this`retries, this`actions
      ensures var (r, a) := FailureStep(old(retries));
        retries == r &&
        actions == old(actions) + match a
          case Retry(d) => [Connect(url, d), Send("rtmp_retry", "rtmp disconnected")]
          case GiveUp => [Send("rtmp_stopped", "rtmp disconnected")]
    {
      Reconnect("rtmp_stopped", "rtmp disconnected");
    }

    /** The retry rule both handlers share: give up past three retries, otherwise count, wait 2^count seconds and reconnect. */
    method Reconnect(giveUpEvent: string, description: string)
      modifies this`retries, this`actions
      ensures var (r, a) := FailureStep(old(retries));
        retries == r &&
        actions == old(actions) + match a
          case Retry(d) => [Connect(url, d), Send("rtmp_retry", description)]
          case GiveUp => [Send(giveUpEvent, description)]
    {
      if retries > MAX_RETRIES {
        actions := actions + [Send(giveUpEvent, description)];
        return;
      }
      retries := retries + 1;
      actions := actions + [Connect(url, Pow2(retries)), Send("rtmp_retry", description)];
    }

    /** `didPublishSufficientBW`: the raised bitrate, when the setting reads as a 32-bit value. */
    method DidPublishSufficientBW() returns (fault: Option<Fault>)
      requires bitrate.Some? ==> 0 <= bitrate.value < UINT32_LIMIT
      modifies this`bitrate
      ensures bitrate.None? ==> fault.None? && bitrate == old(bitrate)
      ensures old(bitrate).Some? && Raised(old(bitrate).value).Threw? ==>
        fault == Some(ArithmeticOverflow) && bitrate == old(bitrate)
      ensures old(bitrate).Some? && Raised(old(bitrate).value).Ok? ==>
        fault.None? && bitrate == Some(Raised(old(bitrate).value).value)
      ensures bitrate.Some? ==> 0 <= bitrate.value < UINT32_LIMIT
    {
      if bitrate.None? {
        return None;
      }
      var videoBitrate := bitrate.value;
      if videoBitrate + INCREMENT_BITRATE >= UINT32_LIMIT {
        return Some(ArithmeticOverflow);
      }
      var newVideoBitrate := videoBitrate + INCREMENT_BITRATE;
      if newVideoBitrate > MAX_BITRATE {
        newVideoBitrate := MAX_BITRATE;
      }
      bitrate := Some(newVideoBitrate);
      fault := None;
    }

    /** `didPublishInsufficientBW`: the lowered bitrate, when the setting reads as a 32-bit value. */
    method DidPublishInsufficientBW()
      requires bitrate.Some? ==> 0 <= bitrate.value < UINT32_LIMIT
      modifies this`bitrate
      ensures old(bitrate).None? ==> bitrate.None?
      ensures old(bitrate).Some? ==> bitrate == Some(Lowered(old(bitrate).value))
    {
      if bitrate.None? {
        return;
      }
      var newVideoBitrate := bitrate.value / 2;
      if newVideoBitrate < MIN_BITRATE {
        newVideoBitrate := MIN_BITRATE;
      }
      bitrate := Some(newVideoBitrate);
    }
  }
}
