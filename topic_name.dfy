/**
  Deriving a camera's info topic from its image topic
  (src_main/calib_camera_pose/calib_camera_pose.py, getStrBeforeLastChar and
  sub_camera_info). The helper is a Python one-liner built from three string
  primitives, so each primitive is modelled with Python's own semantics and
  the edge cases of their combination are stated as lemmas.
*/
module TopicName {

  /** Python's `s[::-1]`. */
  function Reverse(s: string): (r: string)
    ensures |r| == |s|
    ensures forall i :: 0 <= i < |s| ==> r[i] == s[|s| - 1 - i]
  {
    seq(|s|, i requires 0 <= i < |s| => s[|s| - 1 - i])
  }

  /** Python's `s.find(c)` for a one-character needle: the first index of `c`, or -1. */
  function Find(s: string, c: char): (r: int)
    ensures -1 <= r < |s|
    ensures r == -1 <==> c !in s
    ensures r >= 0 ==> s[r] == c && forall k :: 0 <= k < r ==> s[k] != c
  {
    if |s| == 0 then -1
    else if s[0] == c then 0
    else
      var rest := Find(s[1..], c);
      if rest == -1 then -1 else rest + 1
  }

  /**
    Python's `s[:k]`: a non-negative bound is clamped to the length, a
    negative one counts from the end and is clamped to zero.
  */
  function SliceTo(s: string, k: int): (r: string)
    ensures r <= s
    ensures 0 <= k <= |s| ==> |r| == k
    ensures k < 0 && -k <= |s| ==> |r| == |s| + k
  {
    if k >= 0 then (if k <= |s| then s[..k] else s)
    else if |s| + k >= 0 then s[..|s| + k]
    else []
  }

  /**
    `getStrBeforeLastChar = lambda s, c: s[:(-s[::-1].find(c))]`.
    Whatever the input, the result is a prefix of `s`.
  */
  function GetStrBeforeLastChar(s: string, c: char): (r: string)
    ensures r <= s
  {
    SliceTo(s, -Find(Reverse(s), c))
  }

  /** `i` is the index of the last occurrence of `c` in `s`. */
  ghost predicate IsLastIndex(s: string, c: char, i: int)
  {
    0 <= i < |s| && s[i] == c && forall k :: i < k < |s| ==> s[k] != c
  }

  /** Searching the reversed text finds the last occurrence, counted from the end. */
  lemma FindReversed(s: string, c: char, i: int)
    requires IsLastIndex(s, c, i)
    ensures Find(Reverse(s), c) == |s| - 1 - i
  {
    var rs := Reverse(s);
    assert rs[|s| - 1 - i] == c;
    var j := Find(rs, c);
    assert s[|s| - 1 - j] == c;
  }

  /** A character absent from the text is absent from its reversal. */
  lemma FindReversedAbsent(s: string, c: char)
    requires c !in s
    ensures Find(Reverse(s), c) == -1
  {
    var rs := Reverse(s);
    forall j | 0 <= j < |rs|
      ensures rs[j] != c
    {
      assert rs[j] == s[|s| - 1 - j];
    }
  }

  /**
    The intended case: when the last `c` is not the final character, the
    result is the text up to and including that `c`.
  */
  lemma BeforeLastCharInterior(s: string, c: char, i: int)
    requires IsLastIndex(s, c, i) && i < |s| - 1
    ensures GetStrBeforeLastChar(s, c) == s[..i + 1]
    ensures |GetStrBeforeLastChar(s, c)| == i + 1
    ensures GetStrBeforeLastChar(s, c)[i] == c
  {
    FindReversed(s, c, i);
  }

  /**
    When `c` is the final character, `find` returns 0, the slice is
    `s[:-0]`, i.e. `s[:0]`, and the result is empty.
  */
  lemma BeforeLastCharAtEnd(s: string, c: char)
    requires |s| > 0 && s[|s| - 1] == c
    ensures GetStrBeforeLastChar(s, c) == []
  {
    FindReversed(s, c, |s| - 1);
  }

  /**
    When `c` does not occur, `find` returns -1, the slice is `s[:1]`, and
    the result is the first character (empty for the empty text).
  */
  lemma BeforeLastCharAbsent(s: string, c: char)
    requires c !in s
    ensures GetStrBeforeLastChar(s, c) == if |s| == 0 then [] else [s[0]]
  {
    FindReversedAbsent(s, c);
  }

  /**
    The topic queried by `sub_camera_info`: the image topic cut after its
    last '/' and followed by "camera_info". The result always ends with
    "camera_info" and what precedes it is a prefix of the image topic.
  */
  function CameraInfoTopic(imageTopic: string): (r: string)
    ensures |r| >= |"camera_info"|
    ensures r[|r| - |"camera_info"|..] == "camera_info"
    ensures r[..|r| - |"camera_info"|] <= imageTopic
  {
    GetStrBeforeLastChar(imageTopic, '/') + "camera_info"
  }

  /** A topic with a namespace: the last path segment is replaced by "camera_info". */
  lemma CameraInfoTopicReplacesLastSegment(imageTopic: string, i: int)
    requires IsLastIndex(imageTopic, '/', i) && i < |imageTopic| - 1
    ensures CameraInfoTopic(imageTopic) == imageTopic[..i + 1] + "camera_info"
  {
    BeforeLastCharInterior(imageTopic, '/', i);
  }

  /**
    The case of the source comment, for any namespace without a '/':
    "usb_cam/image_raw" becomes "usb_cam/camera_info".
  */
  lemma CameraInfoTopicOfImageRaw(ns: string)
    requires '/' !in ns
    ensures CameraInfoTopic(ns + "/image_raw") == ns + "/camera_info"
  {
    var t := ns + "/image_raw";
    assert t[|ns|] == '/';
    assert forall k :: |ns| < k < |t| ==> t[k] == "/image_raw"[k - |ns|];
    CameraInfoTopicReplacesLastSegment(t, |ns|);
    assert t[..|ns| + 1] == ns + "/";
  }

  /**
    A topic without any '/' keeps its first character in front of
    "camera_info": "image_raw" becomes "icamera_info".
  */
  lemma CameraInfoTopicWithoutNamespace(imageTopic: string)
    requires '/' !in imageTopic
    ensures CameraInfoTopic(imageTopic) == (if |imageTopic| == 0 then [] else [imageTopic[0]]) + "camera_info"
  {
    BeforeLastCharAbsent(imageTopic, '/');
  }

  /** A topic ending in '/' loses everything: the info topic is "camera_info" alone. */
  lemma CameraInfoTopicWithTrailingSlash(imageTopic: string)
    requires |imageTopic| > 0 && imageTopic[|imageTopic| - 1] == '/'
    ensures CameraInfoTopic(imageTopic) == "camera_info"
  {
    BeforeLastCharAtEnd(imageTopic, '/');
  }
}
