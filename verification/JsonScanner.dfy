/** The one-pass nesting scanner that guards the JSON parser, against the structure of the texts that
    sections 2 to 7 of RFC 8259 generate (forensics/ingest.py). */
module JsonScanner {

  // ------------------------------------------------------------------- texts

  /** One element of a string literal: a plain character, a two-character escape, or a \u escape. */
  datatype StringPart = Plain(c: char) | Escape(c: char) | Unicode(hex: string)

  /** A JSON value together with the white space of one particular text of it. */
  datatype Value =
    | Scalar(text: string)
    | Text(parts: seq<StringPart>)
    | Array(lead: string, items: Items)
    | Object(lead: string, members: Members)

  datatype Items =
    | NoItems
    | Item(before: string, value: Value, after: string, rest: Items)

  datatype Members =
    | NoMembers
    | Member(
        before: string, name: seq<StringPart>, beforeColon: string, afterColon: string,
        value: Value, after: string, rest: Members)

  const BACKSLASH := '\\'
  const QUOTE := '"'

  predicate IsSpace(c: char) { c == ' ' || c == '\t' || c == '\n' || c == '\r' }

  predicate IsWhitespace(ws: string) { forall c :: c in ws ==> IsSpace(c) }

  predicate IsHexDigit(c: char) { '0' <= c <= '9' || 'a' <= c <= 'f' || 'A' <= c <= 'F' }

  /** The characters of numbers and of the literals true, false and null; every scalar text is made
      of these. */
  predicate IsScalarChar(c: char) { '0' <= c <= '9' || 'a' <= c <= 'z' || c == '+' || c == '-' || c == '.' || c == 'E' }

  predicate IsScalar(text: string) { text != "" && forall c :: c in text ==> IsScalarChar(c) }

  predicate IsEscapable(c: char) {
    c == QUOTE || c == BACKSLASH || c == '/' || c == 'b' || c == 'f' || c == 'n' || c == 'r' || c == 't'
  }

  predicate PartOk(p: StringPart) {
    match p
    case Plain(c) => c != QUOTE && c != BACKSLASH && c >= ' '
    case Escape(c) => IsEscapable(c)
    case Unicode(hex) => |hex| == 4 && forall c :: c in hex ==> IsHexDigit(c)
  }

  predicate PartsOk(parts: seq<StringPart>) { forall p :: p in parts ==> PartOk(p) }

  predicate ValueOk(v: Value) {
    match v
    case Scalar(text) => IsScalar(text)
    case Text(parts) => PartsOk(parts)
    case Array(lead, items) => IsWhitespace(lead) && ItemsOk(items)
    case Object(lead, members) => IsWhitespace(lead) && MembersOk(members)
  }

  predicate ItemsOk(items: Items) {
    match items
    case NoItems => true
    case Item(before, v, after, rest) => IsWhitespace(before) && ValueOk(v) && IsWhitespace(after) && ItemsOk(rest)
  }

  predicate MembersOk(members: Members) {
    match members
    case NoMembers => true
    case Member(before, name, b, a, v, after, rest) =>
      && IsWhitespace(before) && PartsOk(name) && IsWhitespace(b) && IsWhitespace(a)
      && ValueOk(v) && IsWhitespace(after) && MembersOk(rest)
  }

  function PartText(p: StringPart): string {
    match p
    case Plain(c) => [c]
    case Escape(c) => [BACKSLASH, c]
    case Unicode(hex) => [BACKSLASH, 'u'] + hex
  }

  function PartsText(parts: seq<StringPart>): string {
    if parts == [] then "" else PartsText(parts[..|parts| - 1]) + PartText(parts[|parts| - 1])
  }

  function StringText(parts: seq<StringPart>): string { [QUOTE] + PartsText(parts) + [QUOTE] }

  function ValueText(v: Value): string {
    match v
    case Scalar(text) => text
    case Text(parts) => StringText(parts)
    case Array(lead, items) => "[" + (lead + ItemsText(items)) + "]"
    case Object(lead, members) => "{" + (lead + MembersText(members)) + "}"
  }

  function ItemsText(items: Items): string {
    match items
    case NoItems => ""
    case Item(before, v, after, rest) =>
      before + ValueText(v) + (after + (if rest.NoItems? then "" else ",") + ItemsText(rest))
  }

  function MembersText(members: Members): string {
    match members
    case NoMembers => ""
    case Member(before, name, b, a, v, after, rest) =>
      (before + StringText(name) + (b + ":" + a)) + ValueText(v) +
      (after + (if rest.NoMembers? then "" else ",") + MembersText(rest))
  }

  function Max(a: nat, b: nat): nat { if a < b then b else a }

  /** Structural depth: how many arrays and objects enclose the innermost one, itself included. */
  function Depth(v: Value): nat {
    match v
    case Scalar(_) => 0
    case Text(_) => 0
    case Array(_, items) => 1 + ItemsDepth(items)
    case Object(_, members) => 1 + MembersDepth(members)
  }

  function ItemsDepth(items: Items): nat {
    match items
    case NoItems => 0
    case Item(_, v, _, rest) => Max(Depth(v), ItemsDepth(rest))
  }

  function MembersDepth(members: Members): nat {
    match members
    case NoMembers => 0
    case Member(_, _, _, _, v, _, rest) => Max(Depth(v), MembersDepth(rest))
  }

  // ------------------------------------------------------------------ the scanner

  datatype State = State(depth: nat, deepest: nat, inString: bool, escaped: bool)

  function Step(s: State, c: char): State {
    if s.inString then
      if s.escaped then s.(escaped := false)
      else if c == BACKSLASH then s.(escaped := true)
      else if c == QUOTE then s.(inString := false)
      else s
    else if c == QUOTE then s.(inString := true)
    else if c == '[' || c == '{' then s.(depth := s.depth + 1, deepest := Max(s.deepest, s.depth + 1))
    else if (c == ']' || c == '}') && s.depth > 0 then s.(depth := s.depth - 1)
    else s
  }

  function Scan(s: State, raw: string): State {
    if raw == "" then s else Step(Scan(s, raw[..|raw| - 1]), raw[|raw| - 1])
  }

  const START := State(0, 0, false, false)

  /** `max_json_nesting_depth` */
  method MaxNestingDepth(raw: string) returns (deepest: nat)
    ensures deepest == Scan(START, raw).deepest
  {
    var depth := 0;
    deepest := 0;
    var inString, escaped := false, false;
    for i := 0 to |raw|
      invariant Scan(START, raw[..i]) == State(depth, deepest, inString, escaped)
    {
      var c := raw[i];
      assert raw[..i + 1][..i] == raw[..i];
      if inString {
        if escaped {
          escaped := false;
        } else if c == BACKSLASH {
          escaped := true;
        } else if c == QUOTE {
          inString := false;
        }
        continue;
      }
      if c == QUOTE {
        inString := true;
      } else if c == '[' || c == '{' {
        depth := depth + 1;
        if depth > deepest { deepest := depth; }
      } else if c == ']' || c == '}' {
        if depth > 0 { depth := depth - 1; }
      }
    }
    assert raw[..|raw|] == raw;
  }

  // --------------------------------------------------------------------- proofs

  lemma {:induction false} ScanConcat(s: State, a: string, b: string)
    ensures Scan(s, a + b) == Scan(Scan(s, a), b)
  {
    if b == "" {
      assert a + b == a;
    } else {
      var n := |b| - 1;
      assert (a + b)[..|a + b| - 1] == a + b[..n];
      ScanConcat(s, a, b[..n]);
    }
  }

  lemma {:induction false} ScanOne(s: State, c: char)
    ensures Scan(s, [c]) == Step(s, c)
  {
    assert [c][..0] == "";
  }

  predicate Inert(c: char) { c != QUOTE && c != '[' && c != '{' && c != ']' && c != '}' }

  lemma {:induction false} ScanInert(s: State, text: string)
    requires !s.inString && forall c :: c in text ==> Inert(c)
    ensures Scan(s, text) == s
  {
    if text != "" {
      var n := |text| - 1;
      assert text[n] in text && forall c :: c in text[..n] ==> c in text;
      ScanInert(s, text[..n]);
    }
  }

  predicate Inside(s: State) { s.inString && !s.escaped }

  lemma {:induction false} ScanPlain(s: State, text: string)
    requires Inside(s) && forall c :: c in text ==> c != QUOTE && c != BACKSLASH
    ensures Scan(s, text) == s
  {
    if text != "" {
      var n := |text| - 1;
      assert text[n] in text && forall c :: c in text[..n] ==> c in text;
      ScanPlain(s, text[..n]);
    }
  }

  lemma {:induction false} ScanEscape(s: State, c: char)
    requires Inside(s)
    ensures Scan(s, [BACKSLASH, c]) == s
  {
    ScanConcat(s, [BACKSLASH], [c]);
    ScanOne(s, BACKSLASH);
    ScanOne(s.(escaped := true), c);
    assert [BACKSLASH] + [c] == [BACKSLASH, c];
  }

  lemma {:induction false} ScanPart(s: State, p: StringPart)
    requires Inside(s) && PartOk(p)
    ensures Scan(s, PartText(p)) == s
  {
    match p
    case Plain(c) => ScanPlain(s, [c]);
    case Escape(c) => ScanEscape(s, c);
    case Unicode(hex) =>
      ScanEscape(s, 'u');
      ScanPlain(s, hex);
      ScanConcat(s, [BACKSLASH, 'u'], hex);
  }

  lemma {:induction false} ScanParts(s: State, parts: seq<StringPart>)
    requires Inside(s) && PartsOk(parts)
    ensures Scan(s, PartsText(parts)) == s
  {
    if parts != [] {
      var n := |parts| - 1;
      assert parts[n] in parts && forall p :: p in parts[..n] ==> p in parts;
      ScanParts(s, parts[..n]);
      ScanPart(s, parts[n]);
      ScanConcat(s, PartsText(parts[..n]), PartText(parts[n]));
    }
  }

  /** A string literal, whatever brackets, quotes or escapes it holds, leaves the scanner as it was. */
  lemma {:induction false} ScanString(s: State, parts: seq<StringPart>)
    requires !s.inString && !s.escaped && PartsOk(parts)
    ensures Scan(s, StringText(parts)) == s
  {
    var t := s.(inString := true);
    ScanOne(s, QUOTE);
    ScanParts(t, parts);
    ScanOne(t, QUOTE);
    ScanConcat(s, [QUOTE], PartsText(parts));
    ScanConcat(s, [QUOTE] + PartsText(parts), [QUOTE]);
  }

  /** The scanner between tokens. */
  function At(depth: nat, deepest: nat): State { State(depth, deepest, false, false) }

  /** From between tokens at any depth, scanning `text` comes back to that depth outside any string,
      having gone exactly `k` levels deeper. */
  ghost predicate Balanced(text: string, k: nat) {
    forall d: nat, m: nat :: d <= m ==> Scan(At(d, m), text) == At(d, Max(m, d + k))
  }

  lemma {:induction false} InertBalanced(text: string)
    requires forall c :: c in text ==> Inert(c)
    ensures Balanced(text, 0)
  {
    forall d: nat, m: nat | d <= m ensures Scan(At(d, m), text) == At(d, Max(m, d + 0)) {
      ScanInert(At(d, m), text);
    }
  }

  lemma {:induction false} StringBalanced(parts: seq<StringPart>)
    requires PartsOk(parts)
    ensures Balanced(StringText(parts), 0)
  {
    forall d: nat, m: nat | d <= m ensures Scan(At(d, m), StringText(parts)) == At(d, Max(m, d + 0)) {
      ScanString(At(d, m), parts);
    }
  }

  lemma {:induction false} ConcatBalanced(a: string, j: nat, b: string, k: nat)
    requires Balanced(a, j) && Balanced(b, k)
    ensures Balanced(a + b, Max(j, k))
  {
    forall d: nat, m: nat | d <= m ensures Scan(At(d, m), a + b) == At(d, Max(m, d + Max(j, k))) {
      ScanConcat(At(d, m), a, b);
      var m1 := Max(m, d + j);
      assert Scan(At(d, m), a) == At(d, m1);
      assert Scan(At(d, m1), b) == At(d, Max(m1, d + k));
    }
  }

  lemma {:induction false} ThreeBalanced(a: string, i: nat, b: string, j: nat, c: string, k: nat)
    requires Balanced(a, i) && Balanced(b, j) && Balanced(c, k)
    ensures Balanced(a + b + c, Max(Max(i, j), k))
  {
    ConcatBalanced(a, i, b, j);
    ConcatBalanced(a + b, Max(i, j), c, k);
  }

  lemma {:induction false} BracketBalanced(open: char, inner: string, close: char, k: nat)
    requires (open == '[' && close == ']') || (open == '{' && close == '}')
    requires Balanced(inner, k)
    ensures Balanced([open] + inner + [close], 1 + k)
  {
    forall d: nat, m: nat | d <= m ensures Scan(At(d, m), [open] + inner + [close]) == At(d, Max(m, d + (1 + k))) {
      var m1 := Max(m, d + 1);
      assert Scan(At(d + 1, m1), inner) == At(d + 1, Max(m1, d + 1 + k));
      ScanBracket(d, m, open, inner, close, Max(m1, d + 1 + k));
    }
  }

  lemma {:induction false} ScanBracket(d: nat, m: nat, open: char, inner: string, close: char, deepest: nat)
    requires (open == '[' && close == ']') || (open == '{' && close == '}')
    requires Scan(At(d + 1, Max(m, d + 1)), inner) == At(d + 1, deepest)
    ensures Scan(At(d, m), [open] + inner + [close]) == At(d, deepest)
  {
    ScanConcat(At(d, m), [open], inner);
    ScanConcat(At(d, m), [open] + inner, [close]);
    ScanOne(At(d, m), open);
    ScanOne(At(d + 1, deepest), close);
  }

  /** A value's text is balanced, and exactly as deep as the value. */
  lemma {:induction false} ValueBalanced(v: Value)
    requires ValueOk(v)
    ensures Balanced(ValueText(v), Depth(v))
    decreases v, 1
  {
    match v
    case Scalar(text) => InertBalanced(text);
    case Text(parts) => StringBalanced(parts);
    case Array(lead, items) =>
      InertBalanced(lead);
      ItemsBalanced(items);
      ConcatBalanced(lead, 0, ItemsText(items), ItemsDepth(items));
      BracketBalanced('[', lead + ItemsText(items), ']', ItemsDepth(items));
    case Object(lead, members) =>
      InertBalanced(lead);
      MembersBalanced(members);
      ConcatBalanced(lead, 0, MembersText(members), MembersDepth(members));
      BracketBalanced('{', lead + MembersText(members), '}', MembersDepth(members));
  }

  lemma {:induction false} ItemsBalanced(items: Items)
    requires ItemsOk(items)
    ensures Balanced(ItemsText(items), ItemsDepth(items))
    decreases items, 0
  {
    match items
    case NoItems => InertBalanced("");
    case Item(before, v, after, rest) =>
      var separator := after + if rest.NoItems? then "" else ",";
      InertBalanced(before);
      ValueBalanced(v);
      InertBalanced(separator);
      ItemsBalanced(rest);
      ConcatBalanced(separator, 0, ItemsText(rest), ItemsDepth(rest));
      ThreeBalanced(before, 0, ValueText(v), Depth(v), separator + ItemsText(rest), ItemsDepth(rest));
  }

  lemma {:induction false} MembersBalanced(members: Members)
    requires MembersOk(members)
    ensures Balanced(MembersText(members), MembersDepth(members))
    decreases members, 0
  {
    match members
    case NoMembers => InertBalanced("");
    case Member(before, name, b, a, v, after, rest) =>
      var separator := after + if rest.NoMembers? then "" else ",";
      var colon := b + ":" + a;
      InertBalanced(before);
      StringBalanced(name);
      InertBalanced(colon);
      ThreeBalanced(before, 0, StringText(name), 0, colon, 0);
      ValueBalanced(v);
      InertBalanced(separator);
      MembersBalanced(rest);
      ConcatBalanced(separator, 0, MembersText(rest), MembersDepth(rest));
      ThreeBalanced(before + StringText(name) + colon, 0, ValueText(v), Depth(v),
                    separator + MembersText(rest), MembersDepth(rest));
  }

  /** FOR EVERY TEXT OF EVERY VALUE the scanner returns the structural depth and ends outside any
      string at depth zero. */
  lemma {:induction false} ScannerIsDepth(v: Value, before: string, after: string)
    requires ValueOk(v) && IsWhitespace(before) && IsWhitespace(after)
    ensures Scan(START, before + ValueText(v) + after) == At(0, Depth(v))
  {
    InertBalanced(before);
    ValueBalanced(v);
    InertBalanced(after);
    ThreeBalanced(before, 0, ValueText(v), Depth(v), after, 0);
    assert START == At(0, 0);
  }

  const MAX_JSON_NESTING_DEPTH := 200

  ghost predicate IsTextOf(raw: string, v: Value) {
    && ValueOk(v)
    && exists b, a :: IsWhitespace(b) && IsWhitespace(a) && raw == b + ValueText(v) + a
  }

  /** The guard of `loads_audit_json`: whichever value the input is a text of, it is rejected exactly when
      that value is nested deeper than the limit. */
  method TooDeep(raw: string) returns (rejected: bool)
    ensures forall v :: IsTextOf(raw, v) ==> (rejected <==> Depth(v) > 200)
  {
    var deepest := MaxNestingDepth(raw);
    rejected := deepest > MAX_JSON_NESTING_DEPTH;
    forall v | IsTextOf(raw, v) ensures rejected <==> Depth(v) > MAX_JSON_NESTING_DEPTH {
      var before, after :| IsWhitespace(before) && IsWhitespace(after) && raw == before + ValueText(v) + after;
      ScannerIsDepth(v, before, after);
    }
  }

  /** A text determines the depth of every value it is a text of. */
  lemma {:induction false} TextFixesDepth(raw: string, v: Value, w: Value)
    requires IsTextOf(raw, v) && IsTextOf(raw, w)
    ensures Depth(v) == Depth(w)
  {
    var b, a :| IsWhitespace(b) && IsWhitespace(a) && raw == b + ValueText(v) + a;
    var c, d :| IsWhitespace(c) && IsWhitespace(d) && raw == c + ValueText(w) + d;
    ScannerIsDepth(v, b, a);
    ScannerIsDepth(w, c, d);
  }
}
