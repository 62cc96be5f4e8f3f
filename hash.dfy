/** The commit identity of a prompt (commitHash): a 64-character lowercase hex
    token, the SHA-256 digest of a canonical encoding of the four fields that
    identify a revision (value, languageModelId, languageModelConfig) and the
    number of generations. Every other field of the prompt is ignored. The
    encoding is length-prefixed, so it is injective; the digest function is a
    parameter. */
module Hash {
  import opened Wrappers
  import opened Text
  import opened Json

  /** A prompt row. Timestamps are whole milliseconds. */
  datatype Prompt = Prompt(
    id: int,
    name: string,
    value: string,
    languageModelId: int,
    languageModelConfig: Json,
    projectId: int,
    assertionType: string,
    assertionValue: Option<string>,
    commited: bool,
    createdAt: int,
    updatedAt: int)

  // ---------------------------------------------------------------------------
  // Decimal numerals.

  predicate IsDigit(c: char)
  {
    '0' <= c <= '9'
  }

  function DigitChar(d: nat): (c: char)
    requires d < 10
    ensures IsDigit(c)
  {
    ('0' as int + d) as char
  }

  /** The decimal numeral of `n`, without leading zeros. */
  function Digits(n: nat): (s: string)
    ensures s != [] && forall i :: 0 <= i < |s| ==> IsDigit(s[i])
  {
    if n < 10 then [DigitChar(n)] else Digits(n / 10) + [DigitChar(n % 10)]
  }

  function DigitValue(c: char): (d: nat)
    requires IsDigit(c)
    ensures d < 10
  {
    c as int - '0' as int
  }

  /** The number a string of decimal digits denotes. */
  function DigitsValue(s: string): nat
    requires forall i :: 0 <= i < |s| ==> IsDigit(s[i])
  {
    if s == [] then 0
    else DigitsValue(s[..|s| - 1]) * 10 + DigitValue(s[|s| - 1])
  }

  lemma {:induction false} DigitsValueOfDigits(n: nat)
    ensures DigitsValue(Digits(n)) == n
  {
    if n >= 10 {
      DigitsValueOfDigits(n / 10);
      var s := Digits(n);
      assert s[..|s| - 1] == Digits(n / 10);
    }
  }

  lemma DigitsInjective(m: nat, n: nat)
    requires Digits(m) == Digits(n)
    ensures m == n
  {
    DigitsValueOfDigits(m);
    DigitsValueOfDigits(n);
  }

  /** The decimal numeral of an integer, with a leading '-' when negative. */
  function IntText(i: int): string
  {
    if i < 0 then "-" + Digits(-i) else Digits(i)
  }

  lemma IntTextInjective(i: int, j: int)
    requires IntText(i) == IntText(j)
    ensures i == j
  {
    var t := IntText(i);
    assert i < 0 ==> t[0] == '-';
    assert j < 0 ==> t[0] == '-';
    assert i >= 0 ==> IsDigit(t[0]);
    assert j >= 0 ==> IsDigit(t[0]);
    if i < 0 && j < 0 {
      assert IntText(i)[1..] == Digits(-i) && IntText(j)[1..] == Digits(-j);
      DigitsInjective(-i, -j);
    } else if i >= 0 && j >= 0 {
      DigitsInjective(i, j);
    } else {
      assert false;
    }
  }

  // ---------------------------------------------------------------------------
  // Length-prefixed encoding.

  lemma Assoc(x: string, y: string, z: string)
    ensures x + y + z == x + (y + z)
  {
  }

  /** A count written as its numeral and a ':'. */
  function Count(n: nat): string
  {
    Digits(n) + ":"
  }

  lemma {:induction false} ColonIndexAfterDigits(a: string, r: string)
    requires forall i :: 0 <= i < |a| ==> IsDigit(a[i])
    ensures IndexOf(a + ":" + r, ':') == |a|
  {
    if a != [] {
      assert (a + ":" + r)[1..] == a[1..] + ":" + r;
      ColonIndexAfterDigits(a[1..], r);
    }
  }

  /** A count is recognised at the head of any text: two texts that start with
      counts and agree start with the same count, and agree after it. */
  lemma CountPrefix(m: nat, n: nat, r1: string, r2: string)
    requires Count(m) + r1 == Count(n) + r2
    ensures m == n && r1 == r2
  {
    var a, b := Digits(m), Digits(n);
    var s := Count(m) + r1;
    assert s == a + ":" + r1 && s == b + ":" + r2;
    ColonIndexAfterDigits(a, r1);
    ColonIndexAfterDigits(b, r2);
    assert a == s[..|a|] == b;
    DigitsInjective(m, n);
    assert r1 == s[|a| + 1..] == r2;
  }

  /** A string preceded by its length. */
  function Netstring(s: string): string
  {
    Count(|s|) + s
  }

  lemma NetstringPrefix(a: string, b: string, r1: string, r2: string)
    requires Netstring(a) + r1 == Netstring(b) + r2
    ensures a == b && r1 == r2
  {
    Assoc(Count(|a|), a, r1);
    Assoc(Count(|b|), b, r2);
    CountPrefix(|a|, |b|, a + r1, b + r2);
    var t := a + r1;
    assert a == t[..|a|] == b;
    assert r1 == t[|a|..] == r2;
  }

  /** The kind of a JSON value, as one character; a boolean's kind is its value. */
  function Tag(j: Json): char
  {
    match j
    case JNull => 'n'
    case JBool(b) => if b then 't' else 'f'
    case JNumber(_) => 'd'
    case JString(_) => 's'
    case JArray(_) => 'a'
    case JObject(_) => 'o'
  }

  /** A JSON value, tagged with its kind, every variable-length part length- or
      count-prefixed. */
  function EncodeJson(j: Json): string
    decreases j, 2
  {
    [Tag(j)] + Payload(j)
  }

  function Payload(j: Json): string
    decreases j, 1
  {
    match j
    case JNull => ""
    case JBool(_) => ""
    case JNumber(lit) => Netstring(lit)
    case JString(s) => Netstring(s)
    case JArray(items) => Count(|items|) + EncodeItems(items)
    case JObject(fields) => Count(|fields|) + EncodeFields(fields)
  }

  function EncodeItems(items: seq<Json>): string
    decreases items, 0
  {
    if items == [] then "" else EncodeJson(items[0]) + EncodeItems(items[1..])
  }

  function EncodeFields(fields: seq<Field>): string
    decreases fields, 0
  {
    if fields == [] then ""
    else Netstring(fields[0].key) + EncodeJson(fields[0].value) + EncodeFields(fields[1..])
  }

  lemma FieldSplit(fs: seq<Field>, r: string)
    requires fs != []
    ensures EncodeFields(fs) + r ==
      Netstring(fs[0].key) + (EncodeJson(fs[0].value) + (EncodeFields(fs[1..]) + r))
  {
    Assoc(Netstring(fs[0].key) + EncodeJson(fs[0].value), EncodeFields(fs[1..]), r);
    Assoc(Netstring(fs[0].key), EncodeJson(fs[0].value), EncodeFields(fs[1..]) + r);
  }

  /** The encoding is prefix-free: an encoded value is recognised at the head of
      any text, so two texts that start with encodings and agree start with the
      same value, and agree after it. */
  lemma {:induction false} EncodeJsonPrefix(j: Json, k: Json, r1: string, r2: string)
    requires EncodeJson(j) + r1 == EncodeJson(k) + r2
    ensures j == k && r1 == r2
    decreases j, 2
  {
    var s := EncodeJson(j) + r1;
    Assoc([Tag(j)], Payload(j), r1);
    Assoc([Tag(k)], Payload(k), r2);
    assert s[0] == Tag(j) && s[0] == Tag(k);
    assert Payload(j) + r1 == s[1..] == Payload(k) + r2;
    PayloadPrefix(j, k, r1, r2);
  }

  lemma {:induction false} PayloadPrefix(j: Json, k: Json, r1: string, r2: string)
    requires Tag(j) == Tag(k)
    requires Payload(j) + r1 == Payload(k) + r2
    ensures j == k && r1 == r2
    decreases j, 1
  {
    match j
    case JNull =>
      assert "" + r1 == r1 && "" + r2 == r2;
    case JBool(_) =>
      assert "" + r1 == r1 && "" + r2 == r2;
    case JNumber(lit) =>
      NetstringPrefix(lit, k.literal, r1, r2);
    case JString(x) =>
      NetstringPrefix(x, k.s, r1, r2);
    case JArray(items) =>
      Assoc(Count(|items|), EncodeItems(items), r1);
      Assoc(Count(|k.items|), EncodeItems(k.items), r2);
      CountPrefix(|items|, |k.items|, EncodeItems(items) + r1, EncodeItems(k.items) + r2);
      EncodeItemsPrefix(items, k.items, r1, r2);
    case JObject(fields) =>
      Assoc(Count(|fields|), EncodeFields(fields), r1);
      Assoc(Count(|k.fields|), EncodeFields(k.fields), r2);
      CountPrefix(|fields|, |k.fields|, EncodeFields(fields) + r1, EncodeFields(k.fields) + r2);
      EncodeFieldsPrefix(fields, k.fields, r1, r2);
  }

  lemma {:induction false} EncodeItemsPrefix(xs: seq<Json>, ys: seq<Json>, r1: string, r2: string)
    requires |xs| == |ys|
    requires EncodeItems(xs) + r1 == EncodeItems(ys) + r2
    ensures xs == ys && r1 == r2
    decreases xs, 0
  {
    if xs != [] {
      var t1, t2 := EncodeItems(xs[1..]) + r1, EncodeItems(ys[1..]) + r2;
      Assoc(EncodeJson(xs[0]), EncodeItems(xs[1..]), r1);
      Assoc(EncodeJson(ys[0]), EncodeItems(ys[1..]), r2);
      EncodeJsonPrefix(xs[0], ys[0], t1, t2);
      EncodeItemsPrefix(xs[1..], ys[1..], r1, r2);
      assert xs == [xs[0]] + xs[1..] && ys == [ys[0]] + ys[1..];
    } else {
      assert "" + r1 == r1 && "" + r2 == r2;
    }
  }

  lemma {:induction false} EncodeFieldsPrefix(fs: seq<Field>, gs: seq<Field>, r1: string, r2: string)
    requires |fs| == |gs|
    requires EncodeFields(fs) + r1 == EncodeFields(gs) + r2
    ensures fs == gs && r1 == r2
    decreases fs, 0
  {
    if fs != [] {
      var t1, t2 := EncodeFields(fs[1..]) + r1, EncodeFields(gs[1..]) + r2;
      var u1, u2 := EncodeJson(fs[0].value) + t1, EncodeJson(gs[0].value) + t2;
      FieldSplit(fs, r1);
      FieldSplit(gs, r2);
      NetstringPrefix(fs[0].key, gs[0].key, u1, u2);
      EncodeJsonPrefix(fs[0].value, gs[0].value, t1, t2);
      EncodeFieldsPrefix(fs[1..], gs[1..], r1, r2);
      assert fs == [fs[0]] + fs[1..] && gs == [gs[0]] + gs[1..];
    } else {
      assert "" + r1 == r1 && "" + r2 == r2;
    }
  }

  // ---------------------------------------------------------------------------
  // The canonical input and the token.

  /** The text the digest is taken of: the four identifying fields, in order. */
  function CanonicalInput(p: Prompt, generationsCount: nat): (s: string)
    ensures var v := Netstring(p.value); |v| <= |s| && s[..|v|] == v
    ensures var c := Netstring(Digits(generationsCount)); |c| <= |s| && s[|s| - |c|..] == c
  {
    Netstring(p.value) + Netstring(IntText(p.languageModelId)) +
    EncodeJson(p.languageModelConfig) + Netstring(Digits(generationsCount))
  }

  lemma InputSplit(p: Prompt, n: nat)
    ensures CanonicalInput(p, n) == Netstring(p.value) + (Netstring(IntText(p.languageModelId)) +
      (EncodeJson(p.languageModelConfig) + Netstring(Digits(n))))
  {
    var a, b, c, d := Netstring(p.value), Netstring(IntText(p.languageModelId)),
      EncodeJson(p.languageModelConfig), Netstring(Digits(n));
    Assoc(a + b, c, d);
    Assoc(a, b, c + d);
  }

  /** Two prompts have the same canonical input exactly when they agree on the
      value, the model id and the config, and the generation counts agree. */
  lemma CanonicalInputInjective(p: Prompt, q: Prompt, m: nat, n: nat)
    ensures CanonicalInput(p, m) == CanonicalInput(q, n) <==>
      p.value == q.value && p.languageModelId == q.languageModelId &&
      p.languageModelConfig == q.languageModelConfig && m == n
  {
    if CanonicalInput(p, m) == CanonicalInput(q, n) {
      var a1, a2 := Netstring(Digits(m)), Netstring(Digits(n));
      var c1, c2 := EncodeJson(p.languageModelConfig) + a1, EncodeJson(q.languageModelConfig) + a2;
      var b1, b2 := Netstring(IntText(p.languageModelId)) + c1, Netstring(IntText(q.languageModelId)) + c2;
      InputSplit(p, m);
      InputSplit(q, n);
      NetstringPrefix(p.value, q.value, b1, b2);
      NetstringPrefix(IntText(p.languageModelId), IntText(q.languageModelId), c1, c2);
      IntTextInjective(p.languageModelId, q.languageModelId);
      EncodeJsonPrefix(p.languageModelConfig, q.languageModelConfig, a1, a2);
      assert Netstring(Digits(m)) + "" == Netstring(Digits(n)) + "";
      NetstringPrefix(Digits(m), Digits(n), "", "");
      DigitsInjective(m, n);
    }
  }

  newtype byte = b: int | 0 <= b < 256

  /** A SHA-256 digest: 32 bytes. */
  type Digest = d: seq<byte> | |d| == 32 witness seq(32, _ => 0 as byte)

  /** The SHA-256 function the token is computed with. */
  type Sha256 = string -> Digest

  /** Two lowercase hex digits per byte, high nibble first. */
  function Hex(bs: seq<byte>): (h: string)
    ensures |h| == 2 * |bs|
    ensures forall i :: 0 <= i < |h| ==> IsLowerHexDigit(h[i])
  {
    if bs == [] then []
    else [HexDigit(bs[0] as int / 16), HexDigit(bs[0] as int % 16)] + Hex(bs[1..])
  }

  /** Reads hex text of even length back into bytes. */
  function Unhex(h: string): seq<byte>
    requires |h| % 2 == 0
    requires forall i :: 0 <= i < |h| ==> IsLowerHexDigit(h[i])
  {
    if h == [] then []
    else [(HexValue(h[0]) * 16 + HexValue(h[1])) as byte] + Unhex(h[2..])
  }

  lemma {:induction false} UnhexHex(bs: seq<byte>)
    ensures Unhex(Hex(bs)) == bs
  {
    if bs != [] {
      var b := bs[0] as int;
      HexValueOfDigit(b / 16);
      HexValueOfDigit(b % 16);
      UnhexHex(bs[1..]);
      assert Hex(bs)[2..] == Hex(bs[1..]);
      assert bs == [bs[0]] + bs[1..];
    }
  }

  /** The commit token: the lowercase hex form of the digest of the canonical
      input. */
  function CommitHash(p: Prompt, generationsCount: nat, sha256: Sha256): (t: string)
    ensures |t| == 64
    ensures forall i :: 0 <= i < |t| ==> IsLowerHexDigit(t[i])
  {
    Hex(sha256(CanonicalInput(p, generationsCount)))
  }

  /** The token determines the digest, so different digests give different
      tokens. */
  lemma TokenDeterminesDigest(p: Prompt, q: Prompt, m: nat, n: nat, sha256: Sha256)
    requires sha256(CanonicalInput(p, m)) != sha256(CanonicalInput(q, n))
    ensures CommitHash(p, m, sha256) != CommitHash(q, n, sha256)
  {
    UnhexHex(sha256(CanonicalInput(p, m)));
    UnhexHex(sha256(CanonicalInput(q, n)));
  }

  /** Only the four identifying fields matter: prompts that agree on them get
      the same token, whatever their name, project, assertion or timestamps. */
  lemma TokenIgnoresOtherFields(p: Prompt, q: Prompt, n: nat, sha256: Sha256)
    requires p.value == q.value && p.languageModelId == q.languageModelId
    requires p.languageModelConfig == q.languageModelConfig
    ensures CommitHash(p, n, sha256) == CommitHash(q, n, sha256)
  {
    CanonicalInputInjective(p, q, n, n);
  }

  lemma ValueChangesInput(p: Prompt, v: string, n: nat)
    requires v != p.value
    ensures CanonicalInput(p.(value := v), n) != CanonicalInput(p, n)
  {
    CanonicalInputInjective(p.(value := v), p, n, n);
  }

  lemma ModelIdChangesInput(p: Prompt, id: int, n: nat)
    requires id != p.languageModelId
    ensures CanonicalInput(p.(languageModelId := id), n) != CanonicalInput(p, n)
  {
    CanonicalInputInjective(p.(languageModelId := id), p, n, n);
  }

  lemma ConfigChangesInput(p: Prompt, c: Json, n: nat)
    requires c != p.languageModelConfig
    ensures CanonicalInput(p.(languageModelConfig := c), n) != CanonicalInput(p, n)
  {
    CanonicalInputInjective(p.(languageModelConfig := c), p, n, n);
  }

  /** Replacing an object config by the JSON text of an object is a change, even
      when the text is that of the same object. */
  lemma ConfigAsTextChangesInput(p: Prompt, c: Json, n: nat)
    requires p.languageModelConfig.JObject?
    ensures CanonicalInput(p.(languageModelConfig := JString(Compact(c))), n) != CanonicalInput(p, n)
  {
    ConfigChangesInput(p, JString(Compact(c)), n);
  }

  lemma CountChangesInput(p: Prompt, m: nat, n: nat)
    requires m != n
    ensures CanonicalInput(p, m) != CanonicalInput(p, n)
  {
    CanonicalInputInjective(p, p, m, n);
  }
}
