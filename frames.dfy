/** How the receive loop turns one socket read into frames: the bytes are
    decoded as ASCII and the text is split on the three-character delimiter
    ";;;", dropping empty pieces (String.Split with RemoveEmptyEntries). */
module Frames {
  import opened Wrappers

  type byte = bv8

  /** Size of the receive buffer: one read never yields more bytes. */
  const ReceiveBufferSize: nat := 1024

  const Delimiter: string := ";;;"

  /** Encoding.ASCII.GetString: every byte above 0x7F becomes '?'. */
  function AsciiDecode(bytes: seq<byte>): (text: string)
    ensures |text| == |bytes|
    ensures forall i :: 0 <= i < |text| ==> text[i] as int < 0x80
    ensures forall i :: 0 <= i < |bytes| && bytes[i] < 0x80 ==> text[i] as int == bytes[i] as int
    ensures forall i :: 0 <= i < |bytes| && bytes[i] >= 0x80 ==> text[i] == '?'
  {
    seq(|bytes|, i requires 0 <= i < |bytes| => if bytes[i] < 0x80 then (bytes[i] as int) as char else '?')
  }

  /** The delimiter occurs in `s` starting at index `i`. */
  predicate DelimiterAt(s: string, i: nat) {
    i + 3 <= |s| && s[i] == ';' && s[i + 1] == ';' && s[i + 2] == ';'
  }

  predicate ContainsDelimiter(s: string) {
    exists i: nat | i < |s| :: DelimiterAt(s, i)
  }

  /** The leftmost occurrence of the delimiter at or after `from`. */
  function FirstDelimiter(s: string, from: nat): (r: Option<nat>)
    ensures r.Some? ==> from <= r.value && DelimiterAt(s, r.value)
    ensures r.Some? ==> forall j: nat :: from <= j < r.value ==> !DelimiterAt(s, j)
    ensures r.None? ==> forall j: nat :: from <= j ==> !DelimiterAt(s, j)
    decreases |s| - from
  {
    if from + 3 > |s| then None
    else if DelimiterAt(s, from) then Some(from)
    else FirstDelimiter(s, from + 1)
  }

  /** The pieces between delimiters, empty ones included, as String.Split scans
      them: leftmost match first, matches never overlap. */
  function Segments(s: string): (parts: seq<string>)
    ensures |parts| >= 1
    ensures Join(parts) == s
    ensures forall k :: 0 <= k < |parts| ==> !ContainsDelimiter(parts[k])
    ensures forall k :: 0 <= k < |parts| - 1 ==> FirstDelimiter(parts[k] + Delimiter, 0) == Some(|parts[k]|)
    decreases |s|
  {
    match FirstDelimiter(s, 0)
    case None => [s]
    case Some(i) =>
      var head, rest := s[..i], Segments(s[i + 3..]);
      assert !ContainsDelimiter(head) by {
        forall j: nat | j < i ensures !DelimiterAt(head, j) {
          assert !DelimiterAt(s, j);
          if j + 3 <= i {
            assert head[j] == s[j] && head[j + 1] == s[j + 1] && head[j + 2] == s[j + 2];
          }
        }
      }
      assert s == head + Delimiter + s[i + 3..];
      assert ([head] + rest)[1..] == rest;
      HeadIsLeftmost(s, i);
      [head] + rest
  }

  /** The piece before the leftmost delimiter, with the delimiter after it,
      has its leftmost delimiter exactly at its end. */
  lemma HeadIsLeftmost(s: string, i: nat)
    requires FirstDelimiter(s, 0) == Some(i)
    ensures FirstDelimiter(s[..i] + Delimiter, 0) == Some(i)
  {
    var t := s[..i] + Delimiter;
    assert t == s[..i + 3];
    forall j: nat | j < i ensures !DelimiterAt(t, j) {
      assert !DelimiterAt(s, j);
    }
    FirstDelimiterIs(t, 0, i);
  }

  /** The inverse of splitting: the pieces with the delimiter between them. */
  function Join(parts: seq<string>): string
    requires |parts| >= 1
  {
    if |parts| == 1 then parts[0] else parts[0] + Delimiter + Join(parts[1..])
  }

  /** Drops the empty pieces, keeping the others in order (NonEmptyCount
      and NonEmptyAppend). */
  function NonEmpty(parts: seq<string>): (r: seq<string>)
    ensures |r| <= |parts|
    ensures forall k :: 0 <= k < |r| ==> r[k] != ""
    ensures forall x :: x in r <==> x in parts && x != ""
  {
    if parts == [] then []
    else if parts[0] == "" then NonEmpty(parts[1..])
    else [parts[0]] + NonEmpty(parts[1..])
  }

  /** Every non-empty piece is kept as many times as it occurs. */
  lemma {:induction false} NonEmptyCount(parts: seq<string>)
    ensures multiset(NonEmpty(parts)) == multiset(parts)["" := 0]
  {
    if parts != [] {
      var x, t := parts[0], parts[1..];
      assert parts == [x] + t;
      NonEmptyCount(t);
      NonEmptyCons(x, t);
    }
  }

  /** Filtering a piece in front of a list keeps it exactly when it is not empty. */
  lemma NonEmptyCons(x: string, t: seq<string>)
    ensures NonEmpty([x] + t) == if x == "" then NonEmpty(t) else [x] + NonEmpty(t)
  {
    var c := [x] + t;
    assert c[0] == x && c[1..] == t;
  }

  /** Filtering distributes over concatenation: the kept pieces of the first
      part come before those of the second, so no piece moves past another. */
  lemma {:induction false} NonEmptyAppend(a: seq<string>, b: seq<string>)
    ensures NonEmpty(a + b) == NonEmpty(a) + NonEmpty(b)
  {
    if a == [] {
      assert a + b == b;
    } else {
      var x, t := a[0], a[1..];
      assert a == [x] + t;
      assert a + b == [x] + (t + b);
      NonEmptyAppend(t, b);
      NonEmptyCons(x, t + b);
      NonEmptyCons(x, t);
    }
  }

  /** A single piece is kept exactly when it is not empty. */
  lemma NonEmptySingle(x: string)
    ensures NonEmpty([x]) == if x == "" then [] else [x]
  {
    assert [x][1..] == [];
  }

  /** `recv.Split(";;;", RemoveEmptyEntries)`: the frames of one received text. */
  function SplitFrames(text: string): (frames: seq<string>)
    ensures forall k :: 0 <= k < |frames| ==> frames[k] != "" && !ContainsDelimiter(frames[k])
  {
    var parts := Segments(text);
    var frames := NonEmpty(parts);
    assert forall k :: 0 <= k < |frames| ==> !ContainsDelimiter(frames[k]) by {
      forall k | 0 <= k < |frames| ensures !ContainsDelimiter(frames[k]) {
        assert frames[k] in parts;
        var m :| 0 <= m < |parts| && parts[m] == frames[k];
      }
    }
    frames
  }

  /** A frame the peer can send so that splitting finds it again: not empty, no
      delimiter inside and no ';' at its end (a JSON object ends with '}'). */
  predicate WellFormedFrame(f: string) {
    f != "" && !ContainsDelimiter(f) && f[|f| - 1] != ';'
  }

  /** What the peer writes: every frame followed by the delimiter. */
  function Terminated(frames: seq<string>): string {
    if frames == [] then "" else frames[0] + Delimiter + Terminated(frames[1..])
  }

  lemma {:induction false} FirstDelimiterIs(s: string, from: nat, i: nat)
    requires from <= i && DelimiterAt(s, i)
    requires forall j: nat :: from <= j < i ==> !DelimiterAt(s, j)
    ensures FirstDelimiter(s, from) == Some(i)
    decreases i - from
  {
    if from < i {
      FirstDelimiterIs(s, from + 1, i);
    }
  }

  /** A split of `s` into delimiter-free pieces, each but the last ended by
      the leftmost delimiter after it, is the split Segments finds: there is
      exactly one. */
  lemma {:induction false} SegmentsUnique(s: string, p: seq<string>)
    requires |p| >= 1 && Join(p) == s
    requires forall k :: 0 <= k < |p| ==> !ContainsDelimiter(p[k])
    requires forall k :: 0 <= k < |p| - 1 ==> FirstDelimiter(p[k] + Delimiter, 0) == Some(|p[k]|)
    ensures p == Segments(s)
    decreases |p|
  {
    if |p| == 1 {
      assert s == p[0];
    } else {
      var h, tail := p[0], p[1..];
      var i := |h|;
      var t := h + Delimiter;
      assert s == t + Join(tail);
      assert FirstDelimiter(t, 0) == Some(i);
      forall j: nat | j < i ensures !DelimiterAt(s, j) {
        assert !DelimiterAt(t, j);
        if j + 3 <= |s| {
          assert s[j] == t[j] && s[j + 1] == t[j + 1] && s[j + 2] == t[j + 2];
        }
      }
      assert s[i] == t[i] && s[i + 1] == t[i + 1] && s[i + 2] == t[i + 2];
      FirstDelimiterIs(s, 0, i);
      assert s[..i] == h && s[i + 3..] == Join(tail);
      SegmentsUnique(Join(tail), tail);
      assert p == [h] + tail;
    }
  }

  /** A well-formed frame followed by the delimiter is split off as one piece. */
  lemma SegmentsAfterFrame(f: string, rest: string)
    requires WellFormedFrame(f)
    ensures Segments(f + Delimiter + rest) == [f] + Segments(rest)
  {
    var s := f + Delimiter + rest;
    forall j: nat | j < |f| ensures !DelimiterAt(s, j) {
      if j + 3 <= |f| {
        assert !DelimiterAt(f, j);
        assert s[j] == f[j] && s[j + 1] == f[j + 1] && s[j + 2] == f[j + 2];
      } else {
        assert s[|f| - 1] == f[|f| - 1];
      }
    }
    FirstDelimiterIs(s, 0, |f|);
    assert s[..|f|] == f && s[|f| + 3..] == rest;
  }

  lemma {:induction false} SegmentsOfTerminated(frames: seq<string>)
    requires forall k :: 0 <= k < |frames| ==> WellFormedFrame(frames[k])
    ensures Segments(Terminated(frames)) == frames + [""]
  {
    if frames == [] {
      assert FirstDelimiter("", 0) == None;
    } else {
      var rest := Terminated(frames[1..]);
      assert Terminated(frames) == frames[0] + Delimiter + rest;
      SegmentsAfterFrame(frames[0], rest);
      SegmentsOfTerminated(frames[1..]);
      assert frames + [""] == [frames[0]] + (frames[1..] + [""]);
    }
  }

  lemma {:induction false} NonEmptyOfFrames(frames: seq<string>)
    requires forall k :: 0 <= k < |frames| ==> frames[k] != ""
    ensures NonEmpty(frames + [""]) == frames
  {
    if frames == [] {
      assert NonEmpty([""]) == NonEmpty([]);
    } else {
      assert (frames + [""])[1..] == frames[1..] + [""];
      NonEmptyOfFrames(frames[1..]);
      assert frames == [frames[0]] + frames[1..];
    }
  }

  /** Round trip: splitting what the peer writes gives back exactly its frames,
      in order, with no empty ones. */
  lemma SplitTerminated(frames: seq<string>)
    requires forall k :: 0 <= k < |frames| ==> WellFormedFrame(frames[k])
    ensures SplitFrames(Terminated(frames)) == frames
  {
    SegmentsOfTerminated(frames);
    NonEmptyOfFrames(frames);
  }

  /** Two frames joined by the delimiter, plus a trailing delimiter, are read
      back as exactly those two frames. */
  lemma TwoFramesWithTrailingDelimiter(a: string, b: string)
    requires WellFormedFrame(a) && WellFormedFrame(b)
    ensures SplitFrames(a + Delimiter + b + Delimiter) == [a, b]
  {
    assert Terminated([a, b]) == a + Delimiter + (b + Delimiter + Terminated([])) by {
      assert [a, b][1..] == [b];
      assert [b][1..] == [];
    }
    assert a + Delimiter + b + Delimiter == a + Delimiter + (b + Delimiter + "");
    SplitTerminated([a, b]);
  }
}
