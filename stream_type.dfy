/** The client's stream-URL classifier (`detectStreamType` in map.js). */
module StreamType {
  import opened Text

  datatype StreamKind = Rtsp | Hls | WebRtc | Webcam | Video

  /** The string the client stores in a unit's `streamType`. */
  function KindName(k: StreamKind): (name: string)
    ensures name in {"rtsp", "hls", "webrtc", "webcam", "video"}
  {
    match k
    case Rtsp => "rtsp"
    case Hls => "hls"
    case WebRtc => "webrtc"
    case Webcam => "webcam"
    case Video => "video"
  }

  lemma KindNameInjective(a: StreamKind, b: StreamKind)
    requires KindName(a) == KindName(b)
    ensures a == b
  {
  }

  predicate IsHlsUrl(url: string) {
    Contains(url, ".m3u8") || Contains(url, "/hls/")
  }

  predicate IsWebRtcUrl(url: string) {
    Contains(url, ":8889/") || Contains(url, "/whep") || Contains(url, "/webrtc/") || Contains(url, "webrtc")
  }

  const WebcamSentinel := "webcam://live-stream"

  /** `detectStreamType`: the first matching rule in priority order decides,
      on the lower-cased URL; anything unmatched (including the explicit video
      file extensions) is plain video. */
  function DetectStreamType(streamUrl: string): (k: StreamKind)
    ensures k == Webcam <==> ToLower(streamUrl) == WebcamSentinel
  {
    var url := ToLower(streamUrl);
    assert url == WebcamSentinel ==> !StartsWith(url, "rtsp://") && !IsHlsUrl(url) && !IsWebRtcUrl(url) by {
      if url == WebcamSentinel {
        SentinelNotRtsp();
        SentinelNotHls();
        SentinelNotWebRtc();
      }
    }
    if StartsWith(url, "rtsp://") then Rtsp
    else if IsHlsUrl(url) then Hls
    else if IsWebRtcUrl(url) then WebRtc
    else if url == WebcamSentinel then Webcam
    else Video
  }

  /** Each kind is returned exactly when its rule is the first that matches. */
  lemma DetectPriority(streamUrl: string)
    ensures var url := ToLower(streamUrl);
      && (DetectStreamType(streamUrl) == Rtsp <==> StartsWith(url, "rtsp://"))
      && (DetectStreamType(streamUrl) == Hls <==> !StartsWith(url, "rtsp://") && IsHlsUrl(url))
      && (DetectStreamType(streamUrl) == WebRtc <==>
            !StartsWith(url, "rtsp://") && !IsHlsUrl(url) && IsWebRtcUrl(url))
      && (DetectStreamType(streamUrl) == Webcam <==> url == WebcamSentinel)
      && (DetectStreamType(streamUrl) == Video <==>
            !StartsWith(url, "rtsp://") && !IsHlsUrl(url) && !IsWebRtcUrl(url) && url != WebcamSentinel)
  {
  }

  /** The classifier ignores letter case. */
  lemma DetectIgnoresCase(streamUrl: string)
    ensures DetectStreamType(ToUpper(streamUrl)) == DetectStreamType(streamUrl)
    ensures DetectStreamType(ToLower(streamUrl)) == DetectStreamType(streamUrl)
  {
    ToLowerForgetsCase(streamUrl);
  }

  /** A string lacking one character of `t` does not contain `t`. */
  lemma MissingCharNotContained(s: string, t: string, j: nat)
    requires j < |t| && t[j] !in s
    ensures !Contains(s, t)
  {
    forall i | 0 <= i && i + |t| <= |s| ensures !OccursAt(s, t, i) {
      assert s[i + j] in s;
    }
  }

  lemma LowerCaseFixed(s: string)
    requires forall i :: 0 <= i < |s| ==> !IsUpperAscii(s[i])
    ensures ToLower(s) == s
  {
  }

  /** The placeholder URL of a local webcam preview is classified as webcam. */
  lemma WebcamSentinelDetected()
    ensures DetectStreamType(WebcamSentinel) == Webcam
  {
    LowerCaseFixed(WebcamSentinel);
    SentinelNotRtsp();
    SentinelNotHls();
    SentinelNotWebRtc();
    DetectLowerCase(WebcamSentinel);
  }

  /** On a URL that is already lower case the rules apply to it directly. */
  lemma DetectLowerCase(url: string)
    requires ToLower(url) == url
    ensures !StartsWith(url, "rtsp://") && !IsHlsUrl(url) && IsWebRtcUrl(url) ==> DetectStreamType(url) == WebRtc
    ensures !StartsWith(url, "rtsp://") && !IsHlsUrl(url) && !IsWebRtcUrl(url) && url == WebcamSentinel
      ==> DetectStreamType(url) == Webcam
  {
  }

  lemma SentinelNotRtsp()
    ensures !StartsWith(WebcamSentinel, "rtsp://")
  {
    assert WebcamSentinel[0] == 'w';
  }

  lemma SentinelNotHls()
    ensures !IsHlsUrl(WebcamSentinel)
  {
    MissingCharNotContained(WebcamSentinel, ".m3u8", 0);
    MissingCharNotContained(WebcamSentinel, "/hls/", 1);
  }

  lemma SentinelNotWebRtc()
    ensures !IsWebRtcUrl(WebcamSentinel)
  {
    var url := WebcamSentinel;
    MissingCharNotContained(url, ":8889/", 1);
    MissingCharNotContained(url, "/whep", 2);
    forall i | 0 <= i <= |url| ensures !OccursAt(url, "webrtc", i) {
      if i + 6 <= |url| {
        assert url[i..i + 6][0] == url[i] && url[i..i + 6][3] == url[i + 3];
      }
    }
    forall i | 0 <= i <= |url| ensures !OccursAt(url, "/webrtc/", i) {
      if i + 8 <= |url| {
        assert url[i..i + 8][1] == url[i + 1] && url[i..i + 8][4] == url[i + 4];
      }
    }
  }

  const WhepExample := "http://host/whep"

  /** A camera point whose stream URL names a WHEP endpoint is WebRTC. */
  lemma ExampleWhep()
    ensures DetectStreamType(WhepExample) == WebRtc
  {
    LowerCaseFixed(WhepExample);
    WhepExampleRules();
    DetectLowerCase(WhepExample);
  }

  lemma WhepExampleRules()
    ensures !StartsWith(WhepExample, "rtsp://") && !IsHlsUrl(WhepExample) && IsWebRtcUrl(WhepExample)
  {
    var url := WhepExample;
    assert url[0] == 'h';
    MissingCharNotContained(url, ".m3u8", 0);
    MissingCharNotContained(url, "/hls/", 2);
    assert OccursAt(url, "/whep", 11);
  }
}
