/** Configuration values as a closed JSON datatype, and their serialization as
    ECMAScript's JSON.stringify(value, null, gap) writes it. Numbers are kept as
    the decimal literal JSON.stringify prints for them; object members keep the
    order in which the object holds them. */
module Json {
  import opened Wrappers
  import opened Text

  datatype Json =
    | JNull
    | JBool(b: bool)
    | JNumber(literal: string)
    | JString(s: string)
    | JArray(items: seq<Json>)
    | JObject(fields: seq<Field>)

  datatype Field = Field(key: string, value: Json)

  // ---------------------------------------------------------------------------
  // String literals: escaping and its inverse.

  const Backspace: char := 8 as char
  const FormFeed: char := 12 as char

  function HexDigit(n: nat): (c: char)
    requires n < 16
    ensures IsLowerHexDigit(c)
  {
    "0123456789abcdef"[n]
  }

  predicate IsLowerHexDigit(c: char)
  {
    '0' <= c <= '9' || 'a' <= c <= 'f'
  }

  function HexValue(c: char): (n: nat)
    requires IsLowerHexDigit(c)
    ensures n < 16
  {
    if c <= '9' then c as int - '0' as int else c as int - 'a' as int + 10
  }

  lemma HexValueOfDigit(n: nat)
    requires n < 16
    ensures HexValue(HexDigit(n)) == n
  {
  }

  /** A character JSON.stringify writes as itself inside a string literal. */
  predicate IsPlain(c: char)
  {
    c as int >= 0x20 && c != '"' && c != '\\'
  }

  /** How JSON.stringify writes one character of a string. */
  function EscapeChar(c: char): (e: string)
    ensures e != []
    ensures forall i :: 0 <= i < |e| ==> e[i] as int >= 0x20
  {
    if c == '"' then "\\\""
    else if c == '\\' then "\\\\"
    else if c == '\n' then "\\n"
    else if c == '\r' then "\\r"
    else if c == '\t' then "\\t"
    else if c == Backspace then "\\b"
    else if c == FormFeed then "\\f"
    else if c as int < 0x20 then "\\u00" + [HexDigit(c as int / 16), HexDigit(c as int % 16)]
    else [c]
  }

  /** The body of the string literal JSON.stringify writes for `s`: no control
      character survives, so the literal never spans two lines. */
  function Escape(s: string): (e: string)
    ensures forall i :: 0 <= i < |e| ==> e[i] as int >= 0x20
  {
    if s == [] then [] else EscapeChar(s[0]) + Escape(s[1..])
  }

  function Quote(s: string): string
  {
    "\"" + Escape(s) + "\""
  }

  /** Reads the body of a JSON string literal back into the string it denotes;
      None for a body JSON does not allow (a bare quote, backslash or control
      character, or an unknown escape). */
  function Unescape(e: string): Option<string>
  {
    if e == [] then Some([])
    else if e[0] != '\\' then
      if IsPlain(e[0]) then Prepend(e[0], Unescape(e[1..])) else None
    else if |e| < 2 then None
    else
      var c := e[1];
      if c == '"' || c == '\\' || c == '/' then Prepend(c, Unescape(e[2..]))
      else if c == 'n' then Prepend('\n', Unescape(e[2..]))
      else if c == 'r' then Prepend('\r', Unescape(e[2..]))
      else if c == 't' then Prepend('\t', Unescape(e[2..]))
      else if c == 'b' then Prepend(Backspace, Unescape(e[2..]))
      else if c == 'f' then Prepend(FormFeed, Unescape(e[2..]))
      else if c == 'u' && |e| >= 6 && e[2] == '0' && e[3] == '0'
              && (e[4] == '0' || e[4] == '1') && IsLowerHexDigit(e[5]) then
        Prepend((16 * HexValue(e[4]) + HexValue(e[5])) as char, Unescape(e[6..]))
      else None
  }

  function Prepend(c: char, o: Option<string>): Option<string>
  {
    if o.Some? then Some([c] + o.value) else None
  }

  lemma UnescapeChar(c: char, rest: string)
    ensures Unescape(EscapeChar(c) + rest) == Prepend(c, Unescape(rest))
  {
    var e := EscapeChar(c) + rest;
    if c as int >= 0x20 && c != '"' && c != '\\' {
      assert e[0] == c && e[1..] == rest;
    } else if c as int < 0x20 && c != '\n' && c != '\r' && c != '\t' && c != Backspace && c != FormFeed {
      var n := c as int;
      assert e[..6] == "\\u00" + [HexDigit(n / 16), HexDigit(n % 16)];
      assert e[6..] == rest;
      HexValueOfDigit(n / 16);
      HexValueOfDigit(n % 16);
      assert HexDigit(n / 16) == '0' || HexDigit(n / 16) == '1';
    } else {
      assert e[2..] == rest;
    }
  }

  /** Escaping loses nothing: the literal's body reads back as the string. */
  lemma {:induction false} UnescapeEscape(s: string)
    ensures Unescape(Escape(s)) == Some(s)
  {
    if s != [] {
      UnescapeEscape(s[1..]);
      UnescapeChar(s[0], Escape(s[1..]));
      assert [s[0]] + s[1..] == s;
    }
  }

  /** A string of plain characters is written as it is. */
  lemma {:induction false} EscapePlain(s: string)
    requires forall i :: 0 <= i < |s| ==> IsPlain(s[i])
    ensures Escape(s) == s
  {
    if s != [] {
      EscapePlain(s[1..]);
      assert [s[0]] + s[1..] == s;
    }
  }

  // ---------------------------------------------------------------------------
  // Serialization.

  /** JSON.stringify(j, null, gap) for a value nested at `indent`: with an empty
      gap everything is on one line; otherwise each array item and object member
      goes on its own line, indented by one more gap, and members read
      `"key": value`. Empty arrays and objects are written `[]` and `{}`. */
  function Stringify(j: Json, gap: string, indent: string): string
    decreases j, 1
  {
    match j
    case JNull => "null"
    case JBool(b) => if b then "true" else "false"
    case JNumber(lit) => lit
    case JString(s) => Quote(s)
    case JArray(items) =>
      if items == [] then "[]"
      else if gap == [] then "[" + StringifyItems(items, gap, indent, ",") + "]"
      else
        var inner := indent + gap;
        "[\n" + inner + StringifyItems(items, gap, inner, ",\n" + inner) + "\n" + indent + "]"
    case JObject(fields) =>
      if fields == [] then "{}"
      else if gap == [] then "{" + StringifyFields(fields, gap, indent, ",") + "}"
      else
        var inner := indent + gap;
        "{\n" + inner + StringifyFields(fields, gap, inner, ",\n" + inner) + "\n" + indent + "}"
  }

  /** At every gap and indent, arrays print bracketed, objects braced and
      strings quoted, and the text of a well-formed value is not empty and does
      not end in a line break. */
  lemma StringifyDelimited(j: Json, gap: string, indent: string)
    ensures var s := Stringify(j, gap, indent);
      (j.JArray? ==> |s| >= 2 && s[0] == '[' && s[|s| - 1] == ']') &&
      (j.JObject? ==> |s| >= 2 && s[0] == '{' && s[|s| - 1] == '}') &&
      (j.JString? ==> |s| >= 2 && s[0] == '"' && s[|s| - 1] == '"') &&
      (WellFormed(j) ==> s != [] && s[|s| - 1] != '\n')
  {
    if j.JNumber? && WellFormed(j) {
      assert j.literal[|j.literal| - 1] in "0123456789-+.eE";
    }
  }

  /** The items at `indent`, separated by `sep`. */
  function StringifyItems(items: seq<Json>, gap: string, indent: string, sep: string): string
    decreases items, 0
  {
    if items == [] then ""
    else if |items| == 1 then Stringify(items[0], gap, indent)
    else Stringify(items[0], gap, indent) + sep + StringifyItems(items[1..], gap, indent, sep)
  }

  /** The members at `indent`, separated by `sep`. */
  function StringifyFields(fields: seq<Field>, gap: string, indent: string, sep: string): string
    decreases fields, 0
  {
    if fields == [] then ""
    else
      var f := fields[0];
      var m := Quote(f.key) + ":" + (if gap == [] then "" else " ") + Stringify(f.value, gap, indent);
      if |fields| == 1 then m else m + sep + StringifyFields(fields[1..], gap, indent, sep)
  }

  /** The two-space-indented form the config diff compares. A scalar prints as
      in the one-line form, and the text of a well-formed value is exactly its
      lines joined, so a line diff of two such texts loses nothing. */
  function Pretty(j: Json): (r: string)
    ensures IsScalar(j) ==> r == Compact(j)
    ensures WellFormed(j) ==> Join(Lines(r)) == r
  {
    StringifyDelimited(j, "  ", "");
    JoinLines(Stringify(j, "  ", ""));
    Stringify(j, "  ", "")
  }

  /** The one-line form, JSON.stringify(j). */
  function Compact(j: Json): string
  {
    Stringify(j, "", "")
  }

  /** A number literal as JSON.stringify writes one: digits, sign, point,
      exponent; never a line break. */
  predicate IsNumberLiteral(lit: string)
  {
    lit != [] && forall i :: 0 <= i < |lit| ==> lit[i] in "0123456789-+.eE"
  }

  predicate WellFormed(j: Json)
    decreases j, 1
  {
    match j
    case JNumber(lit) => IsNumberLiteral(lit)
    case JArray(items) => WellFormedItems(items)
    case JObject(fields) => WellFormedFields(fields)
    case _ => true
  }

  predicate WellFormedItems(items: seq<Json>)
    decreases items, 0
  {
    items == [] || (WellFormed(items[0]) && WellFormedItems(items[1..]))
  }

  predicate WellFormedFields(fields: seq<Field>)
    decreases fields, 0
  {
    fields == [] || (WellFormed(fields[0].value) && WellFormedFields(fields[1..]))
  }

  lemma NoNewlineInQuote(s: string)
    ensures '\n' !in Quote(s)
  {
    var q := Quote(s);
    assert forall i :: 0 <= i < |q| ==> q[i] as int >= 0x20 by {
      assert q == "\"" + Escape(s) + "\"";
      forall i | 0 <= i < |q| ensures q[i] as int >= 0x20 {
        if 0 < i < |q| - 1 {
          assert q[i] == Escape(s)[i - 1];
        }
      }
    }
  }

  /** The one-line form of a well-formed value has no line break. */
  lemma {:induction false} CompactIsOneLine(j: Json, indent: string)
    requires WellFormed(j)
    requires '\n' !in indent
    ensures '\n' !in Stringify(j, "", indent)
    decreases j, 1
  {
    match j
    case JNull =>
    case JBool(_) =>
    case JNumber(lit) =>
      assert forall i :: 0 <= i < |lit| ==> lit[i] != '\n';
    case JString(s) => NoNewlineInQuote(s);
    case JArray(items) =>
      if items != [] {
        CompactItemsIsOneLine(items, indent);
      }
    case JObject(fields) =>
      if fields != [] {
        CompactFieldsIsOneLine(fields, indent);
      }
  }

  lemma {:induction false} CompactItemsIsOneLine(items: seq<Json>, indent: string)
    requires WellFormedItems(items)
    requires '\n' !in indent
    ensures '\n' !in StringifyItems(items, "", indent, ",")
    decreases items, 0
  {
    if items != [] {
      CompactIsOneLine(items[0], indent);
      if |items| > 1 {
        CompactItemsIsOneLine(items[1..], indent);
      }
    }
  }

  lemma {:induction false} CompactFieldsIsOneLine(fields: seq<Field>, indent: string)
    requires WellFormedFields(fields)
    requires '\n' !in indent
    ensures '\n' !in StringifyFields(fields, "", indent, ",")
    decreases fields, 0
  {
    if fields != [] {
      NoNewlineInQuote(fields[0].key);
      CompactIsOneLine(fields[0].value, indent);
      if |fields| > 1 {
        CompactFieldsIsOneLine(fields[1..], indent);
      }
    }
  }

  predicate IsScalar(j: Json)
  {
    j.JNull? || j.JBool? || j.JNumber? || j.JString?
  }

  lemma StringifyScalar(v: Json, gap: string, indent: string)
    requires IsScalar(v)
    ensures Stringify(v, gap, indent) == Compact(v)
  {
  }

  /** A non-empty object with a non-empty gap: its members start on the line
      after the brace, one level deeper. */
  lemma ObjectText(fields: seq<Field>, gap: string, indent: string)
    requires fields != [] && gap != []
    ensures Stringify(JObject(fields), gap, indent) ==
      "{\n" + (indent + gap) + StringifyFields(fields, gap, indent + gap, ",\n" + (indent + gap)) + "\n" + indent + "}"
  {
  }

  lemma SingleFieldText(key: string, v: Json, gap: string, indent: string, sep: string)
    requires gap != []
    ensures StringifyFields([Field(key, v)], gap, indent, sep) == Quote(key) + ": " + Stringify(v, gap, indent)
  {
    assert Quote(key) + ":" + " " == Quote(key) + ": ";
  }

  /** The text of a one-member object, pretty-printed. */
  lemma PrettySingleMemberText(key: string, v: Json)
    requires forall i :: 0 <= i < |key| ==> IsPlain(key[i])
    requires IsScalar(v)
    ensures Pretty(JObject([Field(key, v)])) == "{" + "\n" + ("  \"" + key + "\": " + Compact(v)) + "\n" + "}"
  {
    var c := Compact(v);
    StringifyScalar(v, "  ", "  ");
    EscapePlain(key);
    assert "" + "  " == "  ";
    ObjectText([Field(key, v)], "  ", "");
    SingleFieldText(key, v, "  ", "  ", ",\n  ");
    var x := Quote(key) + ": " + c;
    assert Pretty(JObject([Field(key, v)])) == "{\n" + "  " + x + "\n" + "" + "}";
    assert x == "\"" + key + "\": " + c by {
      assert Quote(key) == "\"" + key + "\"";
      assert "\"" + key + "\"" + ": " == "\"" + key + "\": ";
    }
    Regroup(x);
    assert "  " + x == "  \"" + key + "\": " + c by {
      assert "  " + ("\"" + key + "\": " + c) == ("  " + "\"") + key + "\": " + c;
      assert "  " + "\"" == "  \"";
    }
  }

  lemma Regroup(x: string)
    ensures "{\n" + "  " + x + "\n" + "" + "}" == "{" + "\n" + ("  " + x) + "\n" + "}"
  {
    assert "{\n" == "{" + "\n";
    assert "\n" + "" + "}" == "\n" + "}";
  }

  lemma MemberLineIsOneLine(key: string, v: Json)
    requires forall i :: 0 <= i < |key| ==> IsPlain(key[i])
    requires IsScalar(v) && WellFormed(v)
    ensures '\n' !in "  \"" + key + "\": " + Compact(v)
  {
    var c := Compact(v);
    var member := "  \"" + key + "\": " + c;
    CompactIsOneLine(v, "");
    forall i | 0 <= i < |member| ensures member[i] != '\n' {
      if i >= |member| - |c| {
        assert member[i] == c[i - (|member| - |c|)];
      } else if 3 <= i < 3 + |key| {
        assert member[i] == key[i - 3];
      }
    }
  }

  /** The line of a member at two-space indent whose value prints as `text`. */
  function MemberLine(key: string, text: string): string
  {
    "  \"" + key + "\": " + text
  }

  /** An object with one scalar member pretty-prints as three lines: the brace,
      the member indented by two spaces, the closing brace. */
  lemma PrettySingleMember(key: string, v: Json)
    requires forall i :: 0 <= i < |key| ==> IsPlain(key[i])
    requires IsScalar(v) && WellFormed(v)
    ensures Lines(Pretty(JObject([Field(key, v)]))) == ["{", MemberLine(key, Compact(v)), "}"]
  {
    var member := "  \"" + key + "\": " + Compact(v);
    PrettySingleMemberText(key, v);
    MemberLineIsOneLine(key, v);
    JoinThree("{", member, "}");
    LinesJoin(["{", member, "}"]);
  }
}
