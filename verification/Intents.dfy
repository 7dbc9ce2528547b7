/** The intent domain and its content-derived identity (src/intent.rs). */
module Intents {
  import opened Bytes

  type Address = Bytes20
  type IntentId = Digest

  datatype Side = Buy | Sell

  datatype Market = Market(base: Text, quote: Text)

  datatype Intent = Intent(
    submitter: Address, nonce: u64, market: Market, side: Side, size: u128, maxSlippageBps: u16,
    priorityFee: u64, timestampMs: u64, deadlineMs: u64)

  /** The domain separator "INTENT-V1". */
  const ID_PREFIX: seq<byte> := [73, 78, 84, 69, 78, 84, 45, 86, 49]

  function LengthPrefixed(t: Text): seq<byte> {
    LE(|t|, 8) + t
  }

  /** The fixed-width fields that follow the market names. */
  function Terms(i: Intent): seq<byte> {
    [if i.side.Buy? then 0 else 1] + (LE(i.size, 16) + (LE(i.maxSlippageBps, 2)
    + (LE(i.priorityFee, 8) + (LE(i.timestampMs, 8) + LE(i.deadlineMs, 8)))))
  }

  function IdPreimage(i: Intent): seq<byte> {
    ID_PREFIX + (i.submitter + (LE(i.nonce, 8)
    + (LengthPrefixed(i.market.base) + (LengthPrefixed(i.market.quote) + Terms(i)))))
  }

  function Id(keccak: Hash, i: Intent): IntentId {
    keccak(IdPreimage(i))
  }

  lemma Strip(a: seq<byte>, x: seq<byte>, b: seq<byte>, y: seq<byte>)
    requires |a| == |b| && a + x == b + y
    ensures a == b && x == y
  {
    assert (a + x)[..|a|] == a && (b + y)[..|b|] == b;
    assert (a + x)[|a|..] == x && (b + y)[|b|..] == y;
  }

  /** A length prefix tells where the text ends, whatever follows. */
  lemma StripText(s: Text, x: seq<byte>, t: Text, y: seq<byte>)
    requires LengthPrefixed(s) + x == LengthPrefixed(t) + y
    ensures s == t && x == y
  {
    assert LengthPrefixed(s) + x == LE(|s|, 8) + (s + x);
    assert LengthPrefixed(t) + y == LE(|t|, 8) + (t + y);
    Strip(LE(|s|, 8), s + x, LE(|t|, 8), t + y);
    Widths();
    LEInjective(|s|, |t|, 8);
    Strip(s, x, t, y);
  }

  lemma StripLE(m: nat, n: nat, w: nat, x: seq<byte>, y: seq<byte>)
    requires m < Pow256(w) && n < Pow256(w) && LE(m, w) + x == LE(n, w) + y
    ensures m == n && x == y
  {
    Strip(LE(m, w), x, LE(n, w), y);
    LEInjective(m, n, w);
  }

  lemma TermsInjective(i: Intent, j: Intent)
    requires Terms(i) == Terms(j)
    ensures i.side == j.side && i.size == j.size && i.maxSlippageBps == j.maxSlippageBps
    ensures i.priorityFee == j.priorityFee && i.timestampMs == j.timestampMs && i.deadlineMs == j.deadlineMs
  {
    Widths();
    var d, d' := LE(i.deadlineMs, 8), LE(j.deadlineMs, 8);
    var t, t' := LE(i.timestampMs, 8) + d, LE(j.timestampMs, 8) + d';
    var f, f' := LE(i.priorityFee, 8) + t, LE(j.priorityFee, 8) + t';
    var b, b' := LE(i.maxSlippageBps, 2) + f, LE(j.maxSlippageBps, 2) + f';
    var z, z' := LE(i.size, 16) + b, LE(j.size, 16) + b';
    Strip([if i.side.Buy? then 0 else 1], z, [if j.side.Buy? then 0 else 1], z');
    StripLE(i.size, j.size, 16, b, b');
    StripLE(i.maxSlippageBps, j.maxSlippageBps, 2, f, f');
    StripLE(i.priorityFee, j.priorityFee, 8, t, t');
    StripLE(i.timestampMs, j.timestampMs, 8, d, d');
    LEInjective(i.deadlineMs, j.deadlineMs, 8);
  }

  /** The canonical encoding is injective: no two intents share a preimage. */
  lemma IdPreimageInjective(i: Intent, j: Intent)
    requires IdPreimage(i) == IdPreimage(j)
    ensures i == j
  {
    Widths();
    var q, q' := LengthPrefixed(i.market.quote) + Terms(i), LengthPrefixed(j.market.quote) + Terms(j);
    var b, b' := LengthPrefixed(i.market.base) + q, LengthPrefixed(j.market.base) + q';
    var n, n' := LE(i.nonce, 8) + b, LE(j.nonce, 8) + b';
    Strip(ID_PREFIX, i.submitter + n, ID_PREFIX, j.submitter + n');
    Strip(i.submitter, n, j.submitter, n');
    StripLE(i.nonce, j.nonce, 8, b, b');
    StripText(i.market.base, q, j.market.base, q');
    StripText(i.market.quote, Terms(i), j.market.quote, Terms(j));
    TermsInjective(i, j);
  }

  /** Two intents share an id exactly when they are the same intent or exhibit a collision. */
  lemma IdIdentifies(keccak: Hash, i: Intent, j: Intent)
    ensures Id(keccak, i) == Id(keccak, j) <==> i == j || Collides(keccak, IdPreimage(i), IdPreimage(j))
  {
    if IdPreimage(i) == IdPreimage(j) {
      IdPreimageInjective(i, j);
    }
  }

  // ----- which bytes are which field -----

  /** A byte-string literal. */
  function Ascii(text: string): (r: seq<byte>)
    ensures |r| == |text| && forall k :: 0 <= k < |text| ==> r[k] == text[k] as int % 0x100
  {
    seq(|text|, k requires 0 <= k < |text| => text[k] as int % 0x100)
  }

  /** The part of `s` that starts at `at` is `field`. */
  predicate HasAt(s: seq<byte>, at: nat, field: seq<byte>) {
    at + |field| <= |s| && s[at..at + |field|] == field
  }

  lemma NextField(before: seq<byte>, field: seq<byte>, rest: seq<byte>)
    ensures before + (field + rest) == (before + field) + rest
    ensures HasAt(before + (field + rest), |before|, field)
  {
    assert (before + (field + rest))[|before|..|before| + |field|] == field;
  }

  lemma TwoFields(before: seq<byte>, f: seq<byte>, g: seq<byte>, rest: seq<byte>)
    ensures var p := before + (f + (g + rest));
      HasAt(p, |before|, f) && HasAt(p, |before| + |f|, g) && p == (before + f + g) + rest
  {
    hide HasAt;
    NextField(before, f, g + rest);
    NextField(before + f, g, rest);
  }

  /** The fixed-width fields, one after the other. */
  lemma TermsLayout(i: Intent)
    ensures |Terms(i)| == 43 && Terms(i)[0] == (if i.side == Buy then 0 else 1)
    ensures HasAt(Terms(i), 1, LE(i.size, 16)) && HasAt(Terms(i), 17, LE(i.maxSlippageBps, 2))
    ensures HasAt(Terms(i), 19, LE(i.priorityFee, 8)) && HasAt(Terms(i), 27, LE(i.timestampMs, 8))
    ensures HasAt(Terms(i), 35, LE(i.deadlineMs, 8))
  {
  }

  /** What is hashed: tag, submitter, nonce, each market name behind its length, and the fixed-width fields. */
  lemma IdLayout(i: Intent)
    ensures var p, b, q := IdPreimage(i), |i.market.base|, |i.market.quote|;
      |p| == 96 + b + q && HasAt(p, 0, Ascii("INTENT-V1")) && HasAt(p, 9, i.submitter) &&
      HasAt(p, 29, LE(i.nonce, 8)) && HasAt(p, 37, LE(b, 8)) && HasAt(p, 45, i.market.base) &&
      HasAt(p, 45 + b, LE(q, 8)) && HasAt(p, 53 + b, i.market.quote) && HasAt(p, 53 + b + q, Terms(i))
  {
    var b, q := i.market.base, i.market.quote;
    var r5 := LengthPrefixed(q) + Terms(i);
    var r3 := LengthPrefixed(b) + r5;
    TermsLayout(i);
    hide Terms, LE, HasAt;
    NextField(LE(|b|, 8), b, r5);
    NextField(LE(|q|, 8), q, Terms(i));
    assert ID_PREFIX == Ascii("INTENT-V1");
    TwoFields([], ID_PREFIX, i.submitter, LE(i.nonce, 8) + r3);
    assert [] + IdPreimage(i) == IdPreimage(i);
    LaterFields([] + ID_PREFIX + i.submitter, LE(i.nonce, 8), b, q, Terms(i));
  }

  lemma TextFields(before: seq<byte>, t: Text, rest: seq<byte>) returns (upTo: seq<byte>)
    ensures var p := before + (LengthPrefixed(t) + rest);
      HasAt(p, |before|, LE(|t|, 8)) && HasAt(p, |before| + 8, t) && p == upTo + rest && |upTo| == |before| + 8 + |t|
  {
    hide LE, HasAt;
    NextField(LE(|t|, 8), t, rest);
    TwoFields(before, LE(|t|, 8), t, rest);
    upTo := before + LE(|t|, 8) + t;
  }

  lemma LaterFields(before: seq<byte>, nonce: seq<byte>, b: Text, q: Text, terms: seq<byte>)
    ensures var at, p := |before| + |nonce|, before + (nonce + (LengthPrefixed(b) + (LengthPrefixed(q) + terms)));
      HasAt(p, |before|, nonce) && HasAt(p, at, LE(|b|, 8)) && HasAt(p, at + 8, b) &&
      HasAt(p, at + 8 + |b|, LE(|q|, 8)) && HasAt(p, at + 16 + |b|, q) && HasAt(p, at + 16 + |b| + |q|, terms)
  {
    hide LE, HasAt, LengthPrefixed;
    var r := LengthPrefixed(q) + terms;
    NextField(before, nonce, LengthPrefixed(b) + r);
    var b5 := TextFields(before + nonce, b, r);
    var b7 := TextFields(b5, q, terms);
    NextField(b7, terms, []);
    assert terms + [] == terms;
  }
}
