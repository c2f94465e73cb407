/**
 * File-name derivation in app.py: `os.path.basename`, `os.path.splitext` and
 * `os.path.join` as the POSIX flavour of Python's `os.path` defines them, the
 * decimal rendering of an integer timestamp, and the four output names the
 * application builds from them (recorded video, camera recording, saved image
 * result, video snapshot).
 */
module Naming {
  import opened Wrappers

  const Sep: char := '/'
  const Dot: char := '.'

  /** Position of the last `c` in `s`, or -1 (Python's `str.rfind`). */
  function LastIndexOf(s: string, c: char): (i: int)
    ensures -1 <= i < |s|
    ensures i >= 0 ==> s[i] == c
  {
    if |s| == 0 then -1
    else if s[|s| - 1] == c then |s| - 1
    else LastIndexOf(s[..|s| - 1], c)
  }

  /** No `c` follows the position LastIndexOf finds. */
  lemma {:induction false} LastIndexOfIsLast(s: string, c: char)
    ensures forall k :: LastIndexOf(s, c) < k < |s| ==> s[k] != c
  {
    if |s| > 0 && s[|s| - 1] != c {
      var s' := s[..|s| - 1];
      LastIndexOfIsLast(s', c);
      forall k | LastIndexOf(s, c) < k < |s| ensures s[k] != c {
        if k < |s'| {
          assert s[k] == s'[k];
        }
      }
    }
  }

  /** The last `c` is the only position with a `c` and none after it. */
  lemma {:induction false} LastIndexOfIs(s: string, c: char, i: int)
    requires -1 <= i < |s|
    requires i >= 0 ==> s[i] == c
    requires forall k :: i < k < |s| ==> s[k] != c
    ensures LastIndexOf(s, c) == i
  {
    if |s| > 0 && s[|s| - 1] != c {
      var s' := s[..|s| - 1];
      forall k | i < k < |s'| ensures s'[k] != c {
        assert s'[k] == s[k];
      }
      LastIndexOfIs(s', c, i);
    }
  }

  /** Appending text without `c` does not move the last `c`. */
  lemma LastIndexOfAppend(s: string, t: string, c: char)
    requires c !in t
    ensures LastIndexOf(s + t, c) == LastIndexOf(s, c)
  {
    var i := LastIndexOf(s, c);
    LastIndexOfIsLast(s, c);
    forall k | i < k < |s + t|
      ensures (s + t)[k] != c
    {
      if k >= |s| {
        assert (s + t)[k] == t[k - |s|];
      }
    }
    LastIndexOfIs(s + t, c, i);
  }

  /** `os.path.basename`: everything after the last separator. */
  function Basename(p: string): (r: string)
    ensures Sep !in r
    ensures |r| <= |p| && r == p[|p| - |r|..]
    ensures |r| < |p| ==> p[|p| - |r| - 1] == Sep
  {
    LastIndexOfIsLast(p, Sep);
    p[LastIndexOf(p, Sep) + 1..]
  }

  predicate AllDots(s: string) {
    forall k :: 0 <= k < |s| ==> s[k] == Dot
  }

  /**
   * `os.path.splitext` (genericpath._splitext with `/` and `.`): the
   * extension starts at the last dot of the last path component, unless
   * only dots precede that dot in the component (a leading-dot name such as
   * `.bashrc` has no extension).
   */
  function SplitExt(p: string): (r: (string, string))
    ensures r.0 + r.1 == p
  {
    var sepIndex := LastIndexOf(p, Sep);
    var dotIndex := LastIndexOf(p, Dot);
    if dotIndex > sepIndex && !AllDots(p[sepIndex + 1..dotIndex]) then (p[..dotIndex], p[dotIndex..])
    else (p, [])
  }

  /** The text from the last dot on, when no separator follows it, is an extension. */
  lemma ExtensionAfterLastDot(p: string)
    requires LastIndexOf(p, Dot) > LastIndexOf(p, Sep)
    ensures IsExtension(p[LastIndexOf(p, Dot)..])
  {
    var dotIndex := LastIndexOf(p, Dot);
    LastIndexOfIsLast(p, Sep);
    LastIndexOfIsLast(p, Dot);
    var e := p[dotIndex..];
    forall k | 1 <= k < |e| ensures e[k] != Dot && e[k] != Sep {
      assert e[k] == p[dotIndex + k];
    }
  }

  /**
   * What splitext splits off is empty or a single extension; it splits one
   * off only after a name part, so leading dots stay in the stem; and when it
   * splits nothing off, no character other than a dot comes before a dot in
   * the last component.
   */
  lemma SplitExtTail(p: string)
    ensures SplitExt(p).1 == [] || IsExtension(SplitExt(p).1)
    ensures SplitExt(p).1 != [] ==> HasNamePart(SplitExt(p).0)
    ensures SplitExt(p).1 == [] ==>
              forall i, d :: LastIndexOf(p, Sep) < i < d < |p| && p[d] == Dot ==> p[i] == Dot
  {
    var sepIndex, dotIndex := LastIndexOf(p, Sep), LastIndexOf(p, Dot);
    if dotIndex > sepIndex && !AllDots(p[sepIndex + 1..dotIndex]) {
      ExtensionAfterLastDot(p);
      StemKeepsNamePart(p);
    } else {
      OnlyDotsBeforeDots(p);
    }
  }

  /** The stem left by a split keeps the name part found before the last dot. */
  lemma StemKeepsNamePart(p: string)
    requires LastIndexOf(p, Dot) > LastIndexOf(p, Sep)
    requires !AllDots(p[LastIndexOf(p, Sep) + 1..LastIndexOf(p, Dot)])
    ensures HasNamePart(p[..LastIndexOf(p, Dot)])
  {
    var s, d := LastIndexOf(p, Sep), LastIndexOf(p, Dot);
    var stem := p[..d];
    LastIndexOfIsLast(p, Sep);
    forall k | s < k < |stem| ensures stem[k] != Sep {
      assert stem[k] == p[k];
    }
    LastIndexOfIs(stem, Sep, s);
    var j :| 0 <= j < d - s - 1 && p[s + 1..d][j] != Dot;
    assert stem[s + 1 + j] == p[s + 1..d][j];
  }

  /** No name part before the last dot means no name part before any dot of the last component. */
  lemma OnlyDotsBeforeDots(p: string)
    requires LastIndexOf(p, Dot) <= LastIndexOf(p, Sep)
          || AllDots(p[LastIndexOf(p, Sep) + 1..LastIndexOf(p, Dot)])
    ensures forall i, d :: LastIndexOf(p, Sep) < i < d < |p| && p[d] == Dot ==> p[i] == Dot
  {
    var s, dotIndex := LastIndexOf(p, Sep), LastIndexOf(p, Dot);
    assert forall k :: dotIndex < k < |p| ==> p[k] != Dot by {
      LastIndexOfIsLast(p, Dot);
    }
    DotsBeforeLastDot(p, s, dotIndex);
  }

  /** Only dots between `s` and the last dot: every dot after `s` has only dots before it. */
  lemma DotsBeforeLastDot(p: string, s: int, dotIndex: int)
    requires -1 <= s < |p| && -1 <= dotIndex < |p|
    requires forall k :: dotIndex < k < |p| ==> p[k] != Dot
    requires dotIndex <= s || AllDots(p[s + 1..dotIndex])
    ensures forall i, d :: s < i < d < |p| && p[d] == Dot ==> p[i] == Dot
  {
    forall i, d | s < i < d < |p| && p[d] == Dot ensures p[i] == Dot {
      assert d <= dotIndex;
      assert p[s + 1..dotIndex][i - s - 1] == p[i];
    }
  }

  /** A file extension: one leading dot, then no dot and no separator. */
  predicate IsExtension(e: string) {
    |e| >= 1 && e[0] == Dot && forall k :: 1 <= k < |e| ==> e[k] != Dot && e[k] != Sep
  }

  /** A stem whose last path component holds a character other than a dot. */
  predicate HasNamePart(stem: string) {
    exists k :: LastIndexOf(stem, Sep) < k < |stem| && stem[k] != Dot
  }

  /** An extension holds no separator (its leading character is a dot). */
  lemma ExtensionHasNoSep(ext: string)
    requires IsExtension(ext)
    ensures Sep !in ext
  {
    forall k | 0 <= k < |ext| ensures ext[k] != Sep {
      if k > 0 {
        assert ext[k] != Dot && ext[k] != Sep;
      }
    }
  }

  /** The last dot of a stem followed by an extension is the extension's dot. */
  lemma LastDotOfExtension(stem: string, ext: string)
    requires IsExtension(ext)
    ensures LastIndexOf(stem + ext, Dot) == |stem|
  {
    var p := stem + ext;
    forall k | |stem| < k < |p| ensures p[k] != Dot {
      assert p[k] == ext[k - |stem|];
    }
    LastIndexOfIs(p, Dot, |stem|);
  }

  /** The last component of a stem with a name part is not all dots. */
  lemma NamePartNotAllDots(stem: string)
    requires HasNamePart(stem)
    ensures !AllDots(stem[LastIndexOf(stem, Sep) + 1..])
  {
    var sepIndex := LastIndexOf(stem, Sep);
    var k :| sepIndex < k < |stem| && stem[k] != Dot;
    assert stem[sepIndex + 1..][k - sepIndex - 1] == stem[k];
  }

  /** splitext takes apart exactly what was put together from a stem and an extension. */
  lemma SplitExtJoin(stem: string, ext: string)
    requires IsExtension(ext) && HasNamePart(stem)
    ensures SplitExt(stem + ext) == (stem, ext)
  {
    var p := stem + ext;
    ExtensionHasNoSep(ext);
    LastIndexOfAppend(stem, ext, Sep);
    LastDotOfExtension(stem, ext);
    NamePartNotAllDots(stem);
    var sepIndex := LastIndexOf(stem, Sep);
    assert p[sepIndex + 1..|stem|] == stem[sepIndex + 1..];
    assert p[..|stem|] == stem && p[|stem|..] == ext;
  }

  /**
   * `os.path.join(a, b)` for two parts: an absolute `b` replaces `a`; otherwise
   * a separator is inserted unless `a` is empty or already ends with one.
   */
  function Join(a: string, b: string): (r: string)
    ensures |b| > 0 && b[0] == Sep ==> r == b
    ensures !(|b| > 0 && b[0] == Sep) ==>
              && |a| + |b| <= |r| <= |a| + |b| + 1
              && r[..|a|] == a && r[|r| - |b|..] == b
              && (|r| > |a| + |b| <==> a != [] && a[|a| - 1] != Sep)
              && (|r| > |a| + |b| ==> r[|a|] == Sep)
  {
    if |b| > 0 && b[0] == Sep then b
    else if a == [] || a[|a| - 1] == Sep then a + b
    else a + [Sep] + b
  }

  /** The base name of a joined path is the name that was joined (app.py logs `basename(path)`). */
  lemma BasenameJoin(dir: string, name: string)
    requires name != [] && Sep !in name
    ensures Basename(Join(dir, name)) == name
  {
    var p := Join(dir, name);
    var prefix := if dir == [] || dir[|dir| - 1] == Sep then dir else dir + [Sep];
    assert p == prefix + name;
    assert prefix != [] ==> prefix[|prefix| - 1] == Sep;
    LastIndexOfAppend(prefix, name, Sep);
    if prefix == [] {
      assert p == name;
    } else {
      LastIndexOfIs(prefix, Sep, |prefix| - 1);
      assert p[|prefix|..] == name;
    }
  }

  // ---- decimal rendering of an integer timestamp (f"{n}") ----

  predicate IsDigit(c: char) {
    '0' <= c <= '9'
  }

  predicate AllDigits(s: string) {
    forall k {:trigger IsDigit(s[k])} :: 0 <= k < |s| ==> IsDigit(s[k])
  }

  function DigitChar(d: nat): (c: char)
    requires d < 10
    ensures IsDigit(c) && c as int - '0' as int == d
  {
    ('0' as int + d) as char
  }

  /** The decimal digits of `n`, most significant first, without leading zeros. */
  function Decimal(n: nat): (s: string)
    ensures |s| >= 1 && AllDigits(s)
    ensures |s| > 1 ==> s[0] != '0'
  {
    if n < 10 then [DigitChar(n)] else Decimal(n / 10) + [DigitChar(n % 10)]
  }

  /** The number a string of decimal digits denotes. */
  function DigitsValue(s: string): nat
    requires AllDigits(s)
  {
    if s == [] then 0
    else
      assert IsDigit(s[|s| - 1]);
      DigitsValue(s[..|s| - 1]) * 10 + (s[|s| - 1] as int - '0' as int)
  }

  lemma {:induction false} DecimalRoundTrip(n: nat)
    ensures DigitsValue(Decimal(n)) == n
  {
    if n >= 10 {
      var s := Decimal(n);
      assert s[..|s| - 1] == Decimal(n / 10);
      DecimalRoundTrip(n / 10);
    }
  }

  lemma DecimalInjective(a: nat, b: nat)
    requires Decimal(a) == Decimal(b)
    ensures a == b
  {
    DecimalRoundTrip(a);
    DecimalRoundTrip(b);
  }

  /** In `a`, then a non-digit `c`, then digits, the last `c` is the one before the digits. */
  lemma LastBeforeDigits(a: string, c: char, b: string)
    requires !IsDigit(c) && AllDigits(b)
    ensures LastIndexOf(a + [c] + b, c) == |a|
    ensures (a + [c] + b)[..|a|] == a && (a + [c] + b)[|a| + 1..] == b
  {
    assert c !in b by {
      forall k | 0 <= k < |b| ensures b[k] != c {
        assert IsDigit(b[k]);
      }
    }
    LastIndexOfAppend(a + [c], b, c);
    LastIndexOfIs(a + [c], c, |a|);
  }

  // ---- the output names built in app.py ----

  /** `f"{stem}{tag}{timestamp}{ext}"`, the shape of every output name in app.py. */
  function TaggedName(stem: string, tag: string, timestamp: nat, ext: string): string {
    stem + tag + Decimal(timestamp) + ext
  }

  /** Recorded file video: `{splitext(basename(video_path))[0]}_detected_{ts}.mp4`. */
  function VideoRecordingName(videoPath: string, timestamp: nat): string {
    TaggedName(SplitExt(Basename(videoPath)).0, "_detected_", timestamp, ".mp4")
  }

  /** Camera recording: `camera_recording_{ts}.mp4`. */
  function CameraRecordingName(timestamp: nat): string {
    TaggedName("", "camera_recording_", timestamp, ".mp4")
  }

  /** Saved image result: `{splitext(current_image_name)[0]}_result_{ts}.jpg`. */
  function ImageResultName(imageName: string, timestamp: nat): string {
    TaggedName(SplitExt(imageName).0, "_result_", timestamp, ".jpg")
  }

  /** Video snapshot: `{splitext(video_name)[0]}_frame_{ts}.jpg`. */
  function FrameSnapshotName(videoName: string, timestamp: nat): string {
    TaggedName(SplitExt(videoName).0, "_frame_", timestamp, ".jpg")
  }

  /** Decimal digits contain no separator. */
  lemma DigitsHaveNoSep(d: string)
    requires AllDigits(d)
    ensures Sep !in d
  {
    forall k | 0 <= k < |d| ensures d[k] != Sep {
      assert IsDigit(d[k]);
    }
  }

  /** A stem followed by separator-free text holding a non-dot has a name part. */
  lemma NamePartAfterStem(stem: string, rest: string, k: int)
    requires Sep !in rest && 0 <= k < |rest| && rest[k] != Dot
    ensures HasNamePart(stem + rest)
  {
    LastIndexOfAppend(stem, rest, Sep);
    assert (stem + rest)[|stem| + k] == rest[k];
  }

  /** Concatenating separator-free strings gives a separator-free string. */
  lemma NoSepConcat(a: string, b: string)
    requires Sep !in a && Sep !in b
    ensures Sep !in a + b
  {
  }

  /**
   * A tagged name whose tag holds a non-dot and no separator splits back into
   * stem-tag-timestamp and the extension, and carries no separator of its own
   * when its stem has none.
   */
  lemma TaggedNameSplits(stem: string, tag: string, timestamp: nat, ext: string)
    requires Sep !in tag && IsExtension(ext)
    requires exists k :: 0 <= k < |tag| && tag[k] != Dot
    ensures SplitExt(TaggedName(stem, tag, timestamp, ext)) == (stem + tag + Decimal(timestamp), ext)
    ensures Sep !in stem ==> Sep !in TaggedName(stem, tag, timestamp, ext)
  {
    var d := Decimal(timestamp);
    DigitsHaveNoSep(d);
    NoSepConcat(tag, d);
    var k :| 0 <= k < |tag| && tag[k] != Dot;
    assert (tag + d)[k] == tag[k];
    NamePartAfterStem(stem, tag + d, k);
    assert stem + (tag + d) == stem + tag + d;
    SplitExtJoin(stem + tag + d, ext);
    if Sep !in stem {
      ExtensionHasNoSep(ext);
      NoSepConcat(stem, tag + d);
      NoSepConcat(stem + tag + d, ext);
    }
  }

  /** Two different timestamps never give the same name (no silent overwrite). */
  lemma TaggedNameInjective(stem: string, tag: string, t1: nat, t2: nat, ext: string)
    requires TaggedName(stem, tag, t1, ext) == TaggedName(stem, tag, t2, ext)
    ensures t1 == t2
  {
    var n1, n2 := TaggedName(stem, tag, t1, ext), TaggedName(stem, tag, t2, ext);
    var lo, hi := |stem + tag|, |n1| - |ext|;
    assert n1[lo..hi] == Decimal(t1);
    assert n2[lo..hi] == Decimal(t2);
    DecimalInjective(t1, t2);
  }

  /** Splitting off the extension of a bare file name leaves a bare stem. */
  lemma StemHasNoSep(p: string)
    requires Sep !in p
    ensures Sep !in SplitExt(p).0
  {
    var stem := SplitExt(p).0;
    assert p == stem + SplitExt(p).1;
    forall k | 0 <= k < |stem| ensures stem[k] != Sep {
      assert stem[k] == p[k];
    }
  }

  /** The two extensions the program writes. */
  lemma KnownExtensions()
    ensures IsExtension(".mp4") && IsExtension(".jpg")
  {
  }

  /**
   * The recorded-video name: the input's base name without its last extension,
   * then `_detected_`, the timestamp and `.mp4`; it is a bare file name,
   * splitext recovers `.mp4` from it, and joining it to any output directory
   * keeps it as the last component.
   */
  lemma VideoRecordingNameShape(videoPath: string, dir: string, timestamp: nat)
    ensures var name := VideoRecordingName(videoPath, timestamp);
            var input := SplitExt(Basename(videoPath)).0;
            && name == input + "_detected_" + Decimal(timestamp) + ".mp4"
            && Sep !in name
            && SplitExt(name) == (input + "_detected_" + Decimal(timestamp), ".mp4")
            && Basename(Join(dir, name)) == name
  {
    var input := SplitExt(Basename(videoPath)).0;
    StemHasNoSep(Basename(videoPath));
    KnownExtensions();
    assert "_detected_"[0] != Dot;
    TaggedNameSplits(input, "_detected_", timestamp, ".mp4");
    BasenameJoin(dir, VideoRecordingName(videoPath, timestamp));
  }

  /** The camera recording name: `camera_recording_`, the timestamp, `.mp4`. */
  lemma CameraRecordingNameShape(timestamp: nat)
    ensures var name := CameraRecordingName(timestamp);
            && name == "camera_recording_" + Decimal(timestamp) + ".mp4"
            && Sep !in name
            && SplitExt(name) == ("camera_recording_" + Decimal(timestamp), ".mp4")
  {
    KnownExtensions();
    assert "camera_recording_"[0] != Dot;
    assert "" + "camera_recording_" == "camera_recording_";
    TaggedNameSplits("", "camera_recording_", timestamp, ".mp4");
  }

  /**
   * The saved image result, for a bare file name: the name without its last
   * extension, then `_result_`, the timestamp and `.jpg`; it is a bare file
   * name that splitext splits at `.jpg`, and the base name logged after
   * joining it to the output directory is the name itself.
   */
  lemma ImageResultNameShape(name: string, dir: string, timestamp: nat)
    requires Sep !in name
    ensures var r, stem := ImageResultName(name, timestamp), SplitExt(name).0;
            && Sep !in r
            && SplitExt(r) == (stem + "_result_" + Decimal(timestamp), ".jpg")
            && Basename(Join(dir, r)) == r
  {
    StemHasNoSep(name);
    KnownExtensions();
    assert "_result_"[0] != Dot;
    TaggedNameSplits(SplitExt(name).0, "_result_", timestamp, ".jpg");
    BasenameJoin(dir, ImageResultName(name, timestamp));
  }

  /**
   * The video snapshot, for a bare video name: the name without its last
   * extension, then `_frame_`, the timestamp and `.jpg`, with the same shape
   * as the saved image result.
   */
  lemma FrameSnapshotNameShape(name: string, dir: string, timestamp: nat)
    requires Sep !in name
    ensures var f, stem := FrameSnapshotName(name, timestamp), SplitExt(name).0;
            && Sep !in f
            && SplitExt(f) == (stem + "_frame_" + Decimal(timestamp), ".jpg")
            && Basename(Join(dir, f)) == f
  {
    StemHasNoSep(name);
    KnownExtensions();
    assert "_frame_"[0] != Dot;
    TaggedNameSplits(SplitExt(name).0, "_frame_", timestamp, ".jpg");
    BasenameJoin(dir, FrameSnapshotName(name, timestamp));
  }

  /** The video-recording name never repeats for different timestamps. */
  lemma VideoRecordingNamesDistinct(videoPath: string, t1: nat, t2: nat)
    requires t1 != t2
    ensures VideoRecordingName(videoPath, t1) != VideoRecordingName(videoPath, t2)
  {
    if VideoRecordingName(videoPath, t1) == VideoRecordingName(videoPath, t2) {
      TaggedNameInjective(SplitExt(Basename(videoPath)).0, "_detected_", t1, t2, ".mp4");
    }
  }
}
