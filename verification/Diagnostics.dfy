/**
  Bounded diagnostic text: control characters replaced, cut to at most 1024 bytes of UTF-8 without
  splitting a character.

  Text is a sequence of code points, surrogates included, as the host language allows; UTF-8 is
  encoded and strictly decoded as section 3 of RFC 3629 defines it.
*/
module Diagnostics {
  import opened Wrappers
  import opened Splitting

  newtype CodePoint = x: int | 0 <= x < 0x110000

  type Text = seq<CodePoint>

  const MAX_DIAGNOSTIC_BYTES := 1024
  const SPACE: CodePoint := 0x20
  const UNDERSCORE: CodePoint := 0x5F
  const REPLACEMENT: CodePoint := 0xFFFD

  predicate Surrogate(c: CodePoint) {
    0xD800 <= c <= 0xDFFF
  }

  /** General category Cc: the C0 and C1 controls. */
  predicate Control(c: CodePoint) {
    c <= 0x1F || 0x7F <= c <= 0x9F
  }

  predicate Encodable(t: Text) {
    forall i :: 0 <= i < |t| ==> !Surrogate(t[i])
  }

  predicate ControlFree(t: Text) {
    forall i :: 0 <= i < |t| ==> !Control(t[i])
  }

  // ----- UTF-8 -----

  function EncodeOne(c: CodePoint): (bytes: seq<byte>)
    ensures 1 <= |bytes| <= 4
  {
    var n := c as int;
    if n < 0x80 then [n as byte]
    else if n < 0x800 then [(0xC0 + n / 64) as byte, (0x80 + n % 64) as byte]
    else if n < 0x10000 then [(0xE0 + n / 4096) as byte, (0x80 + n / 64 % 64) as byte, (0x80 + n % 64) as byte]
    else [(0xF0 + n / 262144) as byte, (0x80 + n / 4096 % 64) as byte, (0x80 + n / 64 % 64) as byte, (0x80 + n % 64) as byte]
  }

  function Encode(t: Text): seq<byte> {
    if t == [] then [] else EncodeOne(t[0]) + Encode(t[1..])
  }

  predicate Tail(b: byte) {
    0x80 <= b <= 0xBF
  }

  /** How many bytes the character that starts with this byte has; 0 for a byte that starts none. */
  function Width(b: byte): nat {
    if b < 0x80 then 1 else if 0xC2 <= b <= 0xDF then 2 else if 0xE0 <= b <= 0xEF then 3 else if 0xF0 <= b <= 0xF4 then 4 else 0
  }

  /** One character off the front, rejecting overlong forms, surrogates and values above U+10FFFF. */
  function DecodeOne(s: seq<byte>): (r: Option<CodePoint>)
    ensures r.Some? ==> s != [] && 0 < Width(s[0]) <= |s|
  {
    if s == [] then None
    else
      var w := Width(s[0]);
      if w == 0 || |s| < w || (w > 1 && !Tail(s[1])) || (w > 2 && !Tail(s[2])) || (w > 3 && !Tail(s[3])) then None
      else if w == 1 then Some(s[0] as CodePoint)
      else if w == 2 then Some(((s[0] as int - 0xC0) * 64 + (s[1] as int - 0x80)) as CodePoint)
      else if w == 3 then
        if (s[0] == 0xE0 && s[1] < 0xA0) || (s[0] == 0xED && s[1] > 0x9F) then None
        else Some(((s[0] as int - 0xE0) * 4096 + (s[1] as int - 0x80) * 64 + (s[2] as int - 0x80)) as CodePoint)
      else
        if (s[0] == 0xF0 && s[1] < 0x90) || (s[0] == 0xF4 && s[1] > 0x8F) then None
        else Some(((s[0] as int - 0xF0) * 262144 + (s[1] as int - 0x80) * 4096 + (s[2] as int - 0x80) * 64 + (s[3] as int - 0x80)) as CodePoint)
  }

  /** `bytes.decode("utf-8")`. */
  function Decode(s: seq<byte>): Option<Text>
    decreases |s|
  {
    if s == [] then Some([])
    else match DecodeOne(s)
         case None => None
         case Some(c) =>
           match Decode(s[Width(s[0])..])
           case None => None
           case Some(rest) => Some([c] + rest)
  }

  lemma WidthOfEncoded(c: CodePoint)
    requires !Surrogate(c)
    ensures Width(EncodeOne(c)[0]) == |EncodeOne(c)|
    ensures forall i :: 0 < i < |EncodeOne(c)| ==> Tail(EncodeOne(c)[i])
  {
  }

  lemma Digits(n: int)
    requires 0 <= n
    ensures n == n / 64 * 64 + n % 64 && 0 <= n % 64 < 64
    ensures n / 4096 == n / 64 / 64 && n / 262144 == n / 4096 / 64
  {
  }

  lemma DecodesTwo(n: int, s: seq<byte>)
    requires 0x80 <= n < 0x800 && |s| >= 2
    requires s[0] as int == 0xC0 + n / 64 && s[1] as int == 0x80 + n % 64
    ensures DecodeOne(s) == Some(n as CodePoint)
  {
    Digits(n);
  }

  lemma DecodesThree(n: int, s: seq<byte>)
    requires 0x800 <= n < 0x10000 && !Surrogate(n as CodePoint) && |s| >= 3
    requires s[0] as int == 0xE0 + n / 4096 && s[1] as int == 0x80 + n / 64 % 64 && s[2] as int == 0x80 + n % 64
    ensures DecodeOne(s) == Some(n as CodePoint)
  {
    Digits(n);
    Digits(n / 64);
  }

  lemma DecodesFour(n: int, s: seq<byte>)
    requires 0x10000 <= n < 0x110000 && |s| >= 4
    requires s[0] as int == 0xF0 + n / 262144 && s[1] as int == 0x80 + n / 4096 % 64
    requires s[2] as int == 0x80 + n / 64 % 64 && s[3] as int == 0x80 + n % 64
    ensures DecodeOne(s) == Some(n as CodePoint)
  {
    Digits(n);
    Digits(n / 64);
    Digits(n / 4096);
  }

  /** A whole character in front decodes to itself; a part of one does not decode. */
  lemma DecodesFront(c: CodePoint, rest: seq<byte>)
    requires !Surrogate(c)
    ensures DecodeOne(EncodeOne(c) + rest) == Some(c)
  {
    var n, b := c as int, EncodeOne(c);
    var s := b + rest;
    assert forall i :: 0 <= i < |b| ==> s[i] == b[i];
    hide DecodeOne;
    if n < 0x80 {
      DecodesByte(c, s);
    } else if n < 0x800 {
      DecodesTwo(n, s);
    } else if n < 0x10000 {
      DecodesThree(n, s);
    } else {
      DecodesFour(n, s);
    }
  }

  lemma DecodesByte(c: CodePoint, s: seq<byte>)
    requires c < 0x80 && s != [] && s[0] as int == c as int
    ensures DecodeOne(s) == Some(c)
  {
  }

  /** Nothing else decodes: overlong forms, surrogates and values out of range have no encoding. */
  lemma DecodesExactly(c: CodePoint, s: seq<byte>)
    ensures DecodeOne(s) == Some(c) <==> !Surrogate(c) && EncodeOne(c) <= s
  {
    if !Surrogate(c) && EncodeOne(c) <= s {
      assert EncodeOne(c) + s[|EncodeOne(c)|..] == s;
      DecodesFront(c, s[|EncodeOne(c)|..]);
    }
    if DecodeOne(s) == Some(c) {
      EncodesBack(s);
    }
  }

  lemma EncodesBack(s: seq<byte>)
    requires DecodeOne(s).Some?
    ensures !Surrogate(DecodeOne(s).value) && EncodeOne(DecodeOne(s).value) <= s
  {
    hide EncodeOne;
    var w := Width(s[0]);
    if w == 1 {
      EncodedByte(s[0]);
    } else if w == 2 {
      EncodedTwo(s[0] as int - 0xC0, s[1] as int - 0x80);
    } else if w == 3 {
      EncodedThree(s[0] as int - 0xE0, s[1] as int - 0x80, s[2] as int - 0x80);
    } else {
      EncodedFour(s[0] as int - 0xF0, s[1] as int - 0x80, s[2] as int - 0x80, s[3] as int - 0x80);
    }
  }

  lemma EncodedByte(b: byte)
    requires b < 0x80
    ensures EncodeOne(b as CodePoint) == [b]
  {
  }

  lemma EncodedTwo(a: int, b: int)
    requires 2 <= a < 0x20 && 0 <= b < 64
    ensures EncodeOne((a * 64 + b) as CodePoint) == [(0xC0 + a) as byte, (0x80 + b) as byte]
  {
    Joined(a, b);
  }

  lemma EncodedThree(a: int, b: int, c: int)
    requires 0 <= a < 16 && 0 <= b < 64 && 0 <= c < 64 && a * 64 + b >= 32
    ensures EncodeOne((a * 4096 + b * 64 + c) as CodePoint) == [(0xE0 + a) as byte, (0x80 + b) as byte, (0x80 + c) as byte]
  {
    Joined(a, b);
    Joined(a * 64 + b, c);
    Digits(a * 4096 + b * 64 + c);
  }

  lemma EncodedFour(a: int, b: int, c: int, d: int)
    requires 0 <= a <= 4 && 0 <= b < 64 && 0 <= c < 64 && 0 <= d < 64 && 16 <= a * 64 + b < 272
    ensures EncodeOne((a * 262144 + b * 4096 + c * 64 + d) as CodePoint)
            == [(0xF0 + a) as byte, (0x80 + b) as byte, (0x80 + c) as byte, (0x80 + d) as byte]
  {
    Joined(a, b);
    Joined(a * 64 + b, c);
    Joined(a * 4096 + b * 64 + c, d);
    Digits(a * 262144 + b * 4096 + c * 64 + d);
  }

  lemma Joined(high: int, low: int)
    requires 0 <= high && 0 <= low < 64
    ensures (high * 64 + low) / 64 == high && (high * 64 + low) % 64 == low
  {
  }

  lemma PartFails(c: CodePoint, k: nat)
    requires !Surrogate(c) && 0 < k < |EncodeOne(c)|
    ensures DecodeOne(EncodeOne(c)[..k]) == None
  {
    WidthOfEncoded(c);
    assert EncodeOne(c)[..k][0] == EncodeOne(c)[0];
  }

  // ----- Whole-character prefixes -----

  /** How many leading characters fit in `limit` bytes. */
  function Fit(t: Text, limit: nat): (n: nat)
    ensures n <= |t|
  {
    if t == [] || |EncodeOne(t[0])| > limit then 0 else 1 + Fit(t[1..], limit - |EncodeOne(t[0])|)
  }

  lemma EncodeCons(c: CodePoint, t: Text)
    ensures Encode([c] + t) == EncodeOne(c) + Encode(t)
  {
    assert ([c] + t)[1..] == t;
  }

  lemma TakeCons(t: Text, n: nat)
    requires 0 < n <= |t|
    ensures t[..n] == [t[0]] + t[1..][..n - 1]
  {
  }

  /** It is the longest whole-character prefix within the limit. */
  lemma {:induction false} FitIsLongest(t: Text, limit: nat)
    ensures var n := Fit(t, limit);
            |Encode(t[..n])| <= limit && (n < |t| ==> |Encode(t[..n + 1])| > limit)
  {
    var n := Fit(t, limit);
    hide EncodeOne;
    if t == [] {
    } else if |EncodeOne(t[0])| > limit {
      TakeCons(t, 1);
      EncodeCons(t[0], t[1..][..0]);
    } else {
      FitIsLongest(t[1..], limit - |EncodeOne(t[0])|);
      TakeCons(t, n);
      EncodeCons(t[0], t[1..][..n - 1]);
      if n < |t| {
        TakeCons(t, n + 1);
        EncodeCons(t[0], t[1..][..n]);
      }
    }
  }

  /** Between its own size and the limit the same prefix fits. */
  lemma {:induction false} FitStable(t: Text, limit: nat, k: nat)
    requires |Encode(t[..Fit(t, limit)])| <= k <= limit
    ensures Fit(t, k) == Fit(t, limit)
  {
    hide EncodeOne;
    if t != [] && |EncodeOne(t[0])| <= limit {
      var n := Fit(t, limit);
      TakeCons(t, n);
      EncodeCons(t[0], t[1..][..n - 1]);
      FitStable(t[1..], limit - |EncodeOne(t[0])|, k - |EncodeOne(t[0])|);
    }
  }

  lemma SplitTake(a: seq<byte>, b: seq<byte>, k: nat)
    requires k <= |a| + |b|
    ensures k <= |a| ==> (a + b)[..k] == a[..k]
    ensures |a| <= k ==> (a + b)[..k] == a + b[..k - |a|] && (a + b)[..k][|a|..] == b[..k - |a|]
  {
  }

  /** Cut encoded text anywhere: it decodes exactly at whole characters, to the characters before the cut. */
  lemma {:induction false} DecodePrefix(t: Text, k: nat)
    requires Encodable(t) && k <= |Encode(t)|
    ensures var n := Fit(t, k);
            Decode(Encode(t)[..k]) == if |Encode(t[..n])| == k then Some(t[..n]) else None
    decreases |t|, 1
  {
    if t == [] {
    } else {
      var c, a, b := t[0], EncodeOne(t[0]), Encode(t[1..]);
      SplitTake(a, b, k);
      if k < |a| {
        if k > 0 { PartFails(c, k); }
      } else {
        CutBehindFirst(t, k);
      }
    }
  }

  lemma {:induction false} CutBehindFirst(t: Text, k: nat)
    requires Encodable(t) && t != [] && |EncodeOne(t[0])| <= k <= |Encode(t)|
    ensures var n := Fit(t, k);
            Decode(Encode(t)[..k]) == if |Encode(t[..n])| == k then Some(t[..n]) else None
    decreases |t|, 0
  {
    var c, a, b := t[0], EncodeOne(t[0]), Encode(t[1..]);
    var n, rest := Fit(t, k), b[..k - |a|];
    SplitTake(a, b, k);
    DecodesFront(c, rest);
    WidthOfEncoded(c);
    assert (a + rest)[0] == a[0];
    DecodePrefix(t[1..], k - |a|);
    TakeCons(t, n);
    EncodeCons(c, t[1..][..n - 1]);
    hide EncodeOne, DecodeOne, Width, Encode;
  }

  /** Text without surrogates survives encoding and decoding. */
  lemma RoundTrip(t: Text)
    requires Encodable(t)
    ensures Decode(Encode(t)) == Some(t)
  {
    FitAll(t);
    DecodePrefix(t, |Encode(t)|);
    assert Encode(t)[..|Encode(t)|] == Encode(t) && t[..|t|] == t;
  }

  lemma {:induction false} FitAll(t: Text)
    ensures Fit(t, |Encode(t)|) == |t|
  {
    hide EncodeOne;
    if t != [] {
      FitAll(t[1..]);
    }
  }

  // ----- The projection -----

  datatype Projection = Projected(detail: Text, truncated: bool) | InvalidFallback | EncodeError

  function CleanOne(c: CodePoint): CodePoint {
    if c == 0x0D || c == 0x0A || c == 0x09 then SPACE else if Control(c) then REPLACEMENT else c
  }

  function Clean(t: Text): (cleaned: Text)
    ensures |cleaned| == |t| && ControlFree(cleaned)
  {
    seq(|t|, (i: nat) requires i < |t| => CleanOne(t[i]))
  }

  function Spaced(t: Text): (spaced: Text)
    ensures |spaced| == |t|
  {
    seq(|t|, (i: nat) requires i < |t| => if t[i] == UNDERSCORE then SPACE else t[i])
  }

  /** The text before it is cut. */
  function Full(fallback: Text, detail: Text): Text {
    if detail == [] then Spaced(fallback) else Clean(detail)
  }

  /** What the projection must return: the longest whole-character prefix within the limit. */
  function Expected(fallback: Text, detail: Text): Projection {
    if fallback == [] then InvalidFallback
    else
      var full := Full(fallback, detail);
      if !Encodable(full) then EncodeError
      else Projected(full[..Fit(full, MAX_DIAGNOSTIC_BYTES)], |Encode(full)| > MAX_DIAGNOSTIC_BYTES)
  }

  /** `project_diagnostic_detail`, with its byte-dropping loop. */
  method ProjectDiagnosticDetail(fallback: Text, detail: Text) returns (r: Projection)
    ensures r == Expected(fallback, detail)
  {
    if fallback == [] {
      return InvalidFallback;
    }
    var cleaned := Clean(detail);
    if cleaned == [] {
      cleaned := Spaced(fallback);
    }
    if !Encodable(cleaned) {
      return EncodeError;
    }
    var encoded := Encode(cleaned);
    var truncated := |encoded| > MAX_DIAGNOSTIC_BYTES;
    ghost var full, n := cleaned, Fit(cleaned, MAX_DIAGNOSTIC_BYTES);
    hide Encodable, Encode, Decode, Fit, Clean, Spaced;
    if truncated {
      FitIsLongest(full, MAX_DIAGNOSTIC_BYTES);
      var prefix := encoded[..MAX_DIAGNOSTIC_BYTES];
      var decoded := Decode(prefix);
      DecodePrefix(full, MAX_DIAGNOSTIC_BYTES);
      while decoded.None?
        invariant |Encode(full[..n])| <= |prefix| <= MAX_DIAGNOSTIC_BYTES && prefix == encoded[..|prefix|]
        invariant decoded == Decode(prefix)
        invariant decoded == if |Encode(full[..n])| == |prefix| then Some(full[..n]) else None
        decreases |prefix|
      {
        prefix := prefix[..|prefix| - 1];
        decoded := Decode(prefix);
        FitStable(full, MAX_DIAGNOSTIC_BYTES, |prefix|);
        DecodePrefix(full, |prefix|);
      }
      cleaned := decoded.value;
    } else {
      NotCut(full);
    }
    return Projected(cleaned, truncated);
  }

  /** What one character becomes: with a detail, line breaks and tabs turn into spaces and the other controls,
      C0 and C1, into replacement characters; without one, the fallback's underscores turn into spaces. */
  ghost predicate Becomes(fromDetail: bool, c: int, shown: int) {
    if fromDetail then
      && (c in {0x09, 0x0A, 0x0D} ==> shown == 0x20)
      && (c !in {0x09, 0x0A, 0x0D} && (0 <= c <= 0x1F || 0x7F <= c <= 0x9F) ==> shown == 0xFFFD)
      && (0x20 <= c <= 0x7E || c >= 0xA0 ==> shown == c)
    else shown == if c == 0x5F then 0x20 else c
  }

  /** The projection, character by character: the detail, or the fallback where there is none, cut to the longest
      part within the limit; refused exactly without a fallback or where a surrogate stands in the text. */
  lemma ProjectionMeans(fallback: Text, detail: Text)
    ensures var r, text, fromDetail := Expected(fallback, detail), if detail == [] then fallback else detail, detail != [];
            && (r.InvalidFallback? <==> fallback == [])
            && (r.EncodeError? <==> fallback != [] && exists i :: 0 <= i < |text| && 0xD800 <= text[i] <= 0xDFFF)
            && (r.Projected? ==>
                  && |r.detail| <= |text| && (r.truncated <==> |r.detail| < |text|)
                  && (forall i :: 0 <= i < |r.detail| ==> Becomes(fromDetail, text[i] as int, r.detail[i] as int))
                  && |Encode(r.detail)| <= 1024
                  && (r.truncated ==> exists next :: Becomes(fromDetail, text[|r.detail|] as int, next as int) && |Encode(r.detail + [next])| > 1024))
  {
    hide Encode, Fit;
    var full := Full(fallback, detail);
    var text := if detail == [] then fallback else detail;
    forall i | 0 <= i < |text|
      ensures Surrogate(full[i]) <==> Surrogate(text[i])
    {
    }
    if fallback != [] && Encodable(full) {
      CutMeans(full);
      var n := Fit(full, MAX_DIAGNOSTIC_BYTES);
      if n < |full| {
        assert Becomes(detail != [], text[n] as int, full[n] as int);
        assert full[..n] + [full[n]] == full[..n + 1];
      }
    }
  }

  lemma CutMeans(full: Text)
    ensures var n := Fit(full, MAX_DIAGNOSTIC_BYTES);
            && |Encode(full[..n])| <= MAX_DIAGNOSTIC_BYTES && (n < |full| ==> |Encode(full[..n + 1])| > MAX_DIAGNOSTIC_BYTES)
            && (|Encode(full)| > MAX_DIAGNOSTIC_BYTES <==> n < |full|)
  {
    FitIsLongest(full, MAX_DIAGNOSTIC_BYTES);
    var n := Fit(full, MAX_DIAGNOSTIC_BYTES);
    if n < |full| { PrefixSize(full, n + 1); } else { assert full[..n] == full; }
  }

  lemma NotCut(full: Text)
    requires |Encode(full)| <= MAX_DIAGNOSTIC_BYTES
    ensures full[..Fit(full, MAX_DIAGNOSTIC_BYTES)] == full
  {
    FitAll(full);
    var n := Fit(full, MAX_DIAGNOSTIC_BYTES);
    FitIsLongest(full, MAX_DIAGNOSTIC_BYTES);
    if n < |full| {
      PrefixSize(full, n + 1);
    }
    assert full[..|full|] == full;
  }

  lemma {:induction false} PrefixSize(t: Text, n: nat)
    requires n <= |t|
    ensures |Encode(t[..n])| <= |Encode(t)|
  {
    hide EncodeOne;
    if n > 0 {
      TakeCons(t, n);
      EncodeCons(t[0], t[1..][..n - 1]);
      PrefixSize(t[1..], n - 1);
    }
  }

  // ----- What the client accepts -----

  /** The client's check of a received detail. */
  predicate ClientAccepts(clientFallback: Text, detail: Text) {
    detail != [] && Expected(clientFallback, detail) == Projected(detail, false)
  }

  lemma CleanIsIdentity(t: Text)
    ensures Clean(t) == t <==> ControlFree(t)
  {
    if ControlFree(t) {
      assert forall i :: 0 <= i < |t| ==> Clean(t)[i] == t[i];
    }
  }

  /** Exactly the projected form: non-empty, control-free, encodable, within the limit. */
  lemma AcceptsExactly(clientFallback: Text, detail: Text)
    requires clientFallback != []
    ensures ClientAccepts(clientFallback, detail) <==>
            detail != [] && ControlFree(detail) && Encodable(detail) && |Encode(detail)| <= MAX_DIAGNOSTIC_BYTES
  {
    CleanIsIdentity(detail);
    hide Encode, Fit, Clean, Encodable;
    if detail != [] {
      var full := Clean(detail);
      if |Encode(full)| <= MAX_DIAGNOSTIC_BYTES { NotCut(full); }
      FitIsLongest(full, MAX_DIAGNOSTIC_BYTES);
    }
  }

  /** Putting spaces for underscores moves no character boundary. */
  lemma {:induction false} SpacedFits(t: Text, limit: nat)
    ensures Fit(Spaced(t), limit) == Fit(t, limit)
  {
    if t != [] {
      assert Spaced(t)[1..] == Spaced(t[1..]);
      var size := |EncodeOne(t[0])|;
      if size <= limit { SpacedFits(t[1..], limit - size); }
    }
  }

  /** A detail the service emits passes the client's check if and only if the given detail was not
      empty or the part of the fallback code that fits the limit holds no control character. */
  lemma EmittedDetailAccepted(fallback: Text, detail: Text, clientFallback: Text)
    requires clientFallback != [] && Expected(fallback, detail).Projected?
    ensures ClientAccepts(clientFallback, Expected(fallback, detail).detail) <==>
            detail != [] || ControlFree(fallback[..Fit(fallback, MAX_DIAGNOSTIC_BYTES)])
  {
    var full := Full(fallback, detail);
    var n := Fit(full, MAX_DIAGNOSTIC_BYTES);
    var emitted := full[..n];
    FitIsLongest(full, MAX_DIAGNOSTIC_BYTES);
    assert full != [];
    FirstFits(full);
    assert ControlFree(full) ==> ControlFree(emitted);
    assert Encodable(emitted);
    AcceptsExactly(clientFallback, emitted);
    if detail == [] {
      SpacedFits(fallback, MAX_DIAGNOSTIC_BYTES);
      SpacedControls(fallback, n);
    }
  }

  lemma SpacedControls(t: Text, n: nat)
    requires n <= |t|
    ensures ControlFree(Spaced(t)[..n]) <==> ControlFree(t[..n])
  {
    assert forall i :: 0 <= i < n ==> Spaced(t)[..n][i] == Spaced(t)[i] && t[..n][i] == t[i];
    if ControlFree(Spaced(t)[..n]) {
      assert forall i :: 0 <= i < n ==> !Control(Spaced(t)[..n][i]);
    }
  }

  /** An input that fails: an empty detail under a fallback code of one line feed is emitted as that
      line feed, which the client rejects. */
  lemma LineFeedRejected(clientFallback: Text)
    requires clientFallback != []
    ensures Expected([0x0A], []) == Projected([0x0A], false)
    ensures !ClientAccepts(clientFallback, [0x0A])
  {
    var code: Text := [0x0A];
    assert Spaced(code) == code;
    assert |Encode(code)| == 1 && Fit(code, MAX_DIAGNOSTIC_BYTES) == 1 by { assert Encode(code[1..]) == []; }
    AcceptsExactly(clientFallback, code);
    assert Control(code[0]);
  }

  lemma FirstFits(t: Text)
    requires t != []
    ensures Fit(t, MAX_DIAGNOSTIC_BYTES) > 0
  {
  }
}
