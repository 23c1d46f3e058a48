/** Cutting text to a byte limit (`_truncate_utf8` in src/ulg/cli.py, the trimming loop of
    `_show_diff` in src/ulg/tools/coding.py, `_decode_prefix` in
    src/ulg/tools/read_only.py), with UTF-8 as in section 4 of RFC 3629. */
module Utf8 {
  import opened Wrappers

  newtype Byte = b: int | 0 <= b < 256
  type Bytes = seq<Byte>

  predicate Tail(b: Byte) { 0x80 <= b <= 0xBF }

  /** How many bytes a character takes, by its first byte; 0 if none starts so. */
  function Width(b: Byte): (n: nat)
    ensures n <= 4
  {
    if b <= 0x7F then 1
    else if 0xC2 <= b <= 0xDF then 2
    else if 0xE0 <= b <= 0xEF then 3
    else if 0xF0 <= b <= 0xF4 then 4
    else 0
  }

  /** One character of the grammar UTF8-1, UTF8-2, UTF8-3 or UTF8-4. */
  predicate IsChar(s: Bytes) {
    && s != [] && |s| == Width(s[0])
    && (forall i :: 1 <= i < |s| ==> Tail(s[i]))
    && (s[0] == 0xE0 ==> s[1] >= 0xA0)
    && (s[0] == 0xED ==> s[1] <= 0x9F)
    && (s[0] == 0xF0 ==> s[1] >= 0x90)
    && (s[0] == 0xF4 ==> s[1] <= 0x8F)
  }

  predicate Valid(s: Bytes)
    decreases |s|
  {
    s == [] ||
    var n := Width(s[0]);
    0 < n <= |s| && IsChar(s[..n]) && Valid(s[n..])
  }

  /** What is left after dropping last bytes until the rest decodes. */
  function LongestValid(s: Bytes): (r: Bytes)
    ensures r <= s
    decreases |s|
  {
    if Valid(s) then s else LongestValid(s[..|s| - 1])
  }

  lemma {:induction false} LongestValidIsLongest(s: Bytes)
    ensures var r := LongestValid(s);
            && r <= s && Valid(r)
            && forall m :: 0 <= m <= |s| && Valid(s[..m]) ==> m <= |r|
    decreases |s|
  {
    if !Valid(s) {
      var t := s[..|s| - 1];
      LongestValidIsLongest(t);
      assert s[..|s|] == s;
      forall m | 0 <= m <= |s| && Valid(s[..m]) ensures m <= |LongestValid(t)| {
        assert m < |s|;
        assert s[..m] == t[..m];
      }
    }
  }

  lemma DropTake<T>(s: seq<T>, n: nat, k: nat)
    requires n + k <= |s|
    ensures s[..n + k][n..] == s[n..][..k]
  {
  }

  /** A cut through valid text is at most three bytes past the end of a character. */
  lemma {:induction false} CutNearBoundary(s: Bytes, limit: nat) returns (m: nat)
    requires Valid(s) && limit <= |s|
    ensures m <= limit <= m + 3 && Valid(s[..m])
    decreases |s|
  {
    if s == [] || limit < Width(s[0]) {
      return 0;
    }
    var n := Width(s[0]);
    var rest := CutNearBoundary(s[n..], limit - n);
    m := n + rest;
    assert s[..m][..n] == s[..n];
    DropTake(s, n, rest);
  }

  /** For valid text and any limit: the cut keeps the longest valid prefix within the
      limit, and drops at most three bytes of what the limit would allow. */
  lemma CutIsTight(text: Bytes, limit: nat)
    requires Valid(text)
    ensures var cut := if limit <= |text| then text[..limit] else text;
            var r := LongestValid(cut);
            && r <= text && |r| <= limit && Valid(r)
            && (forall m :: 0 <= m <= |text| && m <= limit && Valid(text[..m]) ==> m <= |r|)
            && |cut| <= |r| + 3
            && (|text| <= limit ==> r == text)
  {
    if limit <= |text| {
      var cut := text[..limit];
      LongestValidIsLongest(cut);
      var m := CutNearBoundary(text, limit);
      assert cut[..m] == text[..m];
      forall m | 0 <= m <= |text| && m <= limit && Valid(text[..m]) ensures m <= |LongestValid(cut)| {
        assert cut[..m] == text[..m];
      }
      if limit == |text| { assert cut == text; }
    }
  }

  /** `_truncate_utf8` */
  method TruncateUtf8(payload: Bytes, limit: nat) returns (truncated: Bytes)
    ensures truncated == LongestValid(if limit <= |payload| then payload[..limit] else payload)
  {
    truncated := if limit <= |payload| then payload[..limit] else payload;
    while truncated != []
      invariant LongestValid(truncated) == LongestValid(if limit <= |payload| then payload[..limit] else payload)
      decreases |truncated|
    {
      if Valid(truncated) { break; }
      truncated := truncated[..|truncated| - 1];
    }
  }

  /** What decoding a payload gives, when it was cut and when it was not. */
  function Decoded(payload: Bytes, truncated: bool): Option<Bytes> {
    var r := if truncated then LongestValid(payload) else payload;
    if Valid(r) && |payload| <= |r| + 4 then Some(r) else None
  }

  /** `_decode_prefix`: at most four bytes are given up, and only when the payload was cut. */
  method DecodePrefix(payload: Bytes, truncated: bool) returns (r: Option<Bytes>)
    ensures r == Decoded(payload, truncated)
  {
    if !truncated {
      return if Valid(payload) then Some(payload) else None;
    }
    LongestValidIsLongest(payload);
    assert payload[..|payload|] == payload;
    var most := if |payload| < 4 then |payload| else 4;
    for trim := 0 to most + 1
      invariant LongestValid(payload[..if trim <= |payload| then |payload| - trim else 0]) == LongestValid(payload)
      invariant trim > 0 ==> |LongestValid(payload)| <= |payload| - trim
    {
      var end := |payload| - trim;
      if Valid(payload[..end]) { return Some(payload[..end]); }
      assert end > 0 && payload[..end][..end - 1] == payload[..end - 1];
      LongestValidIsLongest(payload[..end - 1]);
    }
    return None;
  }

  /** Cutting a valid file and decoding the cut always succeeds, with the very prefix that
      `_truncate_utf8` returns. */
  lemma DecodesTheSameCut(text: Bytes, limit: nat)
    requires Valid(text) && limit < |text|
    ensures Decoded(text[..limit], true) == Some(LongestValid(text[..limit]))
  {
    CutIsTight(text, limit);
    LongestValidIsLongest(text[..limit]);
  }

  // ---- exactly which cuts decode, and which of them are cuts of text ----

  predicate ValidWithout(p: Bytes, k: nat) {
    k <= |p| && Valid(p[..|p| - k])
  }

  /** A cut decodes exactly when giving up at most four bytes leaves valid text. */
  lemma CutDecodes(p: Bytes)
    ensures Decoded(p, true).Some? <==> exists k: nat :: k <= 4 && ValidWithout(p, k)
  {
    LongestValidIsLongest(p);
    var r := LongestValid(p);
    var dropped: nat := |p| - |r|;
    assert p[..|p| - dropped] == r;
    assert ValidWithout(p, dropped);
    assert Decoded(p, true).Some? <==> dropped <= 4;
    forall k: nat | ValidWithout(p, k) ensures dropped <= k {
      assert |p| - k <= |r|;
    }
  }

  /** What follows the longest valid prefix. */
  function BadTail(p: Bytes): Bytes { p[|LongestValid(p)|..] }

  /** The first bytes of some character, but not all of it; possibly none. */
  ghost predicate CharStart(t: Bytes) {
    exists c :: IsChar(c) && t < c
  }

  /** Some valid text begins with these bytes. */
  ghost predicate CutOfText(p: Bytes) {
    exists more :: Valid(p + more)
  }

  lemma {:induction false} ValidConcat(a: Bytes, b: Bytes)
    requires Valid(a) && Valid(b)
    ensures Valid(a + b)
    decreases |a|
  {
    if a == [] {
      assert a + b == b;
    } else {
      var n := Width(a[0]);
      ValidConcat(a[n..], b);
      assert (a + b)[..n] == a[..n] && (a + b)[n..] == a[n..] + b;
    }
  }

  lemma CharIsValid(c: Bytes)
    requires IsChar(c)
    ensures Valid(c)
  {
    assert c[..|c|] == c && c[|c|..] == [];
  }

  /** Valid text reads in one way only: after a valid prefix, the rest is valid. */
  lemma {:induction false} ValidRest(s: Bytes, k: nat)
    requires Valid(s) && k <= |s| && Valid(s[..k])
    ensures Valid(s[k..])
    decreases |s|
  {
    if k > 0 {
      var n := Width(s[0]);
      assert s[..k][0] == s[0] && s[..k][n..] == s[n..][..k - n];
      ValidRest(s[n..], k - n);
      assert s[n..][k - n..] == s[k..];
    }
  }

  /** The first character of a valid text that is longer than what was read of it. */
  lemma FirstChar(s: Bytes, t: Bytes)
    requires Valid(s) && t <= s && t != []
    requires forall m :: 0 < m <= |t| ==> !Valid(t[..m])
    ensures CharStart(t)
  {
    var n := Width(s[0]);
    CharIsValid(s[..n]);
    assert forall m :: 0 < m <= |t| ==> t[..m] == s[..m];
    assert t < s[..n];
  }

  lemma InvalidRest(a: Bytes, b: Bytes)
    requires Valid(a) && !Valid(a + b)
    ensures !Valid(b)
  {
    if Valid(b) { ValidConcat(a, b); }
  }

  /** No part of the bad tail is valid. */
  lemma BadTailIsBad(p: Bytes, m: nat)
    requires 0 < m <= |BadTail(p)|
    ensures !Valid(BadTail(p)[..m])
  {
    var r := LongestValid(p);
    LongestValidIsLongest(p);
    assert p[..|r| + m] == r + BadTail(p)[..m];
    InvalidRest(r, BadTail(p)[..m]);
  }

  lemma CutEndsInChar(p: Bytes, more: Bytes)
    requires Valid(p + more)
    ensures CharStart(BadTail(p))
  {
    var s, r, t := p + more, LongestValid(p), BadTail(p);
    LongestValidIsLongest(p);
    if t == [] {
      assert IsChar([0x41]) && t < [0x41];
    } else {
      assert s[..|r|] == r;
      ValidRest(s, |r|);
      forall m | 0 < m <= |t| ensures !Valid(t[..m]) { BadTailIsBad(p, m); }
      assert s[|r|..] == t + more;
      FirstChar(s[|r|..], t);
    }
  }

  lemma CharCompletes(p: Bytes, c: Bytes)
    requires IsChar(c) && BadTail(p) < c
    ensures CutOfText(p)
  {
    var r, t := LongestValid(p), BadTail(p);
    LongestValidIsLongest(p);
    CharIsValid(c);
    ValidConcat(r, c);
    Completion(r, t, c);
    assert p == r + t;
  }

  lemma Completion<T>(a: seq<T>, part: seq<T>, whole: seq<T>)
    requires part <= whole
    ensures (a + part) + whole[|part|..] == a + whole
  {
  }

  /** Bytes are a cut of some valid text exactly when what follows their longest valid
      prefix is the start of a character: nothing, or one to three bytes. */
  lemma CutOfTextEndsInChar(p: Bytes)
    ensures CutOfText(p) <==> CharStart(BadTail(p))
  {
    if CharStart(BadTail(p)) {
      var c :| IsChar(c) && BadTail(p) < c;
      CharCompletes(p, c);
    }
    if CutOfText(p) {
      var more :| Valid(p + more);
      CutEndsInChar(p, more);
    }
  }

  /** Exactly the misread cuts: a cut that is not the beginning of any valid text is
      decoded all the same, if and only if its bad tail, which is then not the start of a
      character, has at most four bytes. */
  lemma Misread(p: Bytes)
    ensures Decoded(p, true).Some? && !CutOfText(p) <==>
            |BadTail(p)| <= 4 && !CharStart(BadTail(p))
  {
    LongestValidIsLongest(p);
    CutOfTextEndsInChar(p);
  }

  /** Such a cut. */
  lemma BadTailIsAccepted()
    ensures var cut: Bytes := [0x41, 0xFF, 0xFF, 0xFF, 0xFF];
            !Valid(cut) && Decoded(cut, true) == Some([0x41])
  {
    var c1: Bytes := [0x41];
    var c2: Bytes := [0x41, 0xFF];
    var c3: Bytes := [0x41, 0xFF, 0xFF];
    var c4: Bytes := [0x41, 0xFF, 0xFF, 0xFF];
    var c5: Bytes := [0x41, 0xFF, 0xFF, 0xFF, 0xFF];
    assert c5[..4] == c4 && c4[..3] == c3 && c3[..2] == c2 && c2[..1] == c1;
    assert c5[1..][0] == c4[1..][0] == c3[1..][0] == c2[1..][0] == 0xFF;
    assert c1[1..] == [] && Valid(c1);
    assert LongestValid(c2) == c1;
    assert LongestValid(c3) == LongestValid(c2);
    assert LongestValid(c4) == LongestValid(c3);
    assert LongestValid(c5) == LongestValid(c4);
  }
}
