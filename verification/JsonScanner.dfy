/** The one-pass scanners that bound nesting before any JSON is parsed, against the nesting of the
    values whose text they read (sections 2 and 7 of RFC 8259). */
module JsonScanner {
  import opened Common

  // ---- the scanners ----

  /** Status messages may nest to a depth; alerts and manifests must be one object without arrays. */
  datatype Rule = AtMost(depth: nat) | OneObject

  datatype Effect = Opens | Closes | Refused | Neutral

  datatype Scan = Rejected | Scanning(depth: nat, quoted: bool, escaped: bool)

  const START := Scanning(0, false, false)
  const NUL := '\0'
  const JSON_DEPTH := 8
  const FLAT_MAX := 1024

  function EffectOf(rule: Rule, c: char): Effect {
    if c == '{' then Opens
    else if c == '}' then Closes
    else if c == '[' then (if rule.AtMost? then Opens else Refused)
    else if c == ']' then (if rule.AtMost? then Closes else Neutral)
    else Neutral
  }

  function Limit(rule: Rule): nat {
    match rule case AtMost(depth) => depth case OneObject => 1
  }

  function Feed(rule: Rule, st: Scan, c: char): Scan {
    if st.Rejected? || c == NUL then Rejected
    else if st.quoted then
      if st.escaped then st.(escaped := false)
      else if c == '\\' then st.(escaped := true)
      else if c == '"' then st.(quoted := false)
      else st
    else if c == '"' then st.(quoted := true)
    else match EffectOf(rule, c)
      case Opens => if st.depth + 1 > Limit(rule) then Rejected else st.(depth := st.depth + 1)
      case Closes => if st.depth == 0 then Rejected else st.(depth := st.depth - 1)
      case Refused => Rejected
      case Neutral => st
  }

  function FeedAll(rule: Rule, st: Scan, s: string): Scan
    decreases |s|
  {
    if s == [] then st else FeedAll(rule, Feed(rule, st, s[0]), s[1..])
  }

  predicate Accepts(rule: Rule, s: string) {
    var st := FeedAll(rule, START, s);
    st.Scanning? && !st.quoted && st.depth == 0
  }

  lemma {:induction false} FeedInTwo(rule: Rule, st: Scan, a: string, b: string)
    ensures FeedAll(rule, st, a + b) == FeedAll(rule, FeedAll(rule, st, a), b)
    decreases |a|
  {
    if a == [] {
      assert a + b == b;
    } else {
      assert (a + b)[0] == a[0] && (a + b)[1..] == a[1..] + b;
      FeedInTwo(rule, Feed(rule, st, a[0]), a[1..], b);
    }
  }

  lemma {:induction false} RejectedForGood(rule: Rule, s: string)
    ensures FeedAll(rule, Rejected, s) == Rejected
    decreases |s|
  {
    if s != [] { RejectedForGood(rule, s[1..]); }
  }

  lemma {:induction false} FeedPrefix(rule: Rule, st: Scan, s: string, i: nat)
    requires i < |s|
    ensures FeedAll(rule, st, s[..i + 1]) == Feed(rule, FeedAll(rule, st, s[..i]), s[i])
  {
    assert s[..i + 1] == s[..i] + [s[i]];
    FeedInTwo(rule, st, s[..i], [s[i]]);
    assert [s[i]][1..] == [];
  }

  /** What is rejected on the way is rejected in the end. */
  lemma {:induction false} RejectedEarly(rule: Rule, s: string, i: nat)
    requires i < |s|
    ensures FeedAll(rule, START, s[..i + 1]) == Rejected ==> !Accepts(rule, s)
  {
    assert s == s[..i + 1] + s[i + 1..];
    FeedInTwo(rule, START, s[..i + 1], s[i + 1..]);
    RejectedForGood(rule, s[i + 1..]);
  }

  method BoundedDepth(s: string) returns (ok: bool)
    ensures ok == Accepts(AtMost(JSON_DEPTH), s)
  {
    var depth, quoted, escaped := 0, false, false;
    for i := 0 to |s|
      invariant FeedAll(AtMost(JSON_DEPTH), START, s[..i]) == Scanning(depth, quoted, escaped)
    {
      var c := s[i];
      FeedPrefix(AtMost(JSON_DEPTH), START, s, i);
      RejectedEarly(AtMost(JSON_DEPTH), s, i);
      if c == NUL { return false; }
      if quoted {
        if escaped { escaped := false; }
        else if c == '\\' { escaped := true; }
        else if c == '"' { quoted := false; }
        continue;
      }
      if c == '"' {
        quoted := true;
      } else if c == '{' || c == '[' {
        depth := depth + 1;
        if depth > JSON_DEPTH { return false; }
      } else if c == '}' || c == ']' {
        if depth == 0 { return false; }
        depth := depth - 1;
      }
    }
    assert s[..|s|] == s;
    return !quoted && depth == 0;
  }

  /** The scan that precedes the parsing of an alert or a manifest. */
  method FlatScan(json: string) returns (ok: bool)
    ensures ok <==> 0 < |json| <= 1024 && Accepts(OneObject, json)
  {
    if |json| == 0 || |json| > FLAT_MAX { return false; }
    var quoted, escape, depth := false, false, 0;
    for i := 0 to |json|
      invariant FeedAll(OneObject, START, json[..i]) == Scanning(depth, quoted, escape)
    {
      var c := json[i];
      FeedPrefix(OneObject, START, json, i);
      RejectedEarly(OneObject, json, i);
      if c == NUL { return false; }
      if quoted {
        if escape { escape := false; } else if c == '\\' { escape := true; } else if c == '"' { quoted := false; }
      } else if c == '"' {
        quoted := true;
      } else if c == '[' {
        return false;
      } else if c == '{' {
        depth := depth + 1;
        if depth > 1 { return false; }
      } else if c == '}' {
        if depth == 0 { return false; }
        depth := depth - 1;
      }
    }
    assert json[..|json|] == json;
    if quoted || depth != 0 { return false; }
    return true;
  }

  // ---- any text at all: string literals and single characters ----

  /** One character of a string, or a backslash and the character it escapes. A four-digit code
      point escape is the escaped `u` followed by its digits. */
  datatype Piece = Plain(c: char) | Escaped(c: char)

  function PrintPieces(pieces: seq<Piece>): string {
    if pieces == [] then []
    else (match pieces[0] case Plain(c) => [c] case Escaped(c) => ['\\', c]) + PrintPieces(pieces[1..])
  }

  function Quote(pieces: seq<Piece>): string {
    ['"'] + PrintPieces(pieces) + ['"']
  }

  predicate GoodPieces(pieces: seq<Piece>) {
    forall p | p in pieces :: p.c != NUL && (p.Plain? ==> p.c != '"' && p.c != '\\')
  }

  datatype Token = Literal(pieces: seq<Piece>) | Sign(c: char)

  predicate GoodToken(t: Token) {
    match t case Literal(pieces) => GoodPieces(pieces) case Sign(c) => c != '"' && c != '\0'
  }

  function PrintToken(t: Token): string {
    match t case Literal(pieces) => Quote(pieces) case Sign(c) => [c]
  }

  function PrintTokens(ts: seq<Token>): string {
    if ts == [] then [] else PrintTokens(ts[..|ts| - 1]) + PrintToken(ts[|ts| - 1])
  }

  /** How many braces, and with `square` brackets too, have been opened and not closed. */
  function Level(ts: seq<Token>, square: bool): int {
    if ts == [] then 0
    else Level(ts[..|ts| - 1], square) + LevelOf(ts[|ts| - 1], square)
  }

  function LevelOf(t: Token, square: bool): int {
    if t == Sign('{') || (square && t == Sign('[')) then 1
    else if t == Sign('}') || (square && t == Sign(']')) then -1
    else 0
  }

  ghost predicate Within(ts: seq<Token>, square: bool, limit: nat) {
    forall k | 0 <= k <= |ts| :: 0 <= Level(ts[..k], square) <= limit
  }

  /** The text consists of these tokens, and they close all they open, with never more than `limit` open. */
  ghost predicate Balances(s: string, ts: seq<Token>, square: bool, limit: nat) {
    && s == PrintTokens(ts) && (forall t | t in ts :: GoodToken(t))
    && Within(ts, square, limit) && Level(ts, square) == 0
  }

  lemma {:induction false} WithinOneMore(ts: seq<Token>, square: bool, limit: nat)
    requires ts != []
    ensures Within(ts, square, limit) <==> Within(ts[..|ts| - 1], square, limit) && 0 <= Level(ts, square) <= limit
  {
    var before := ts[..|ts| - 1];
    assert forall k | 0 <= k < |ts| :: before[..k] == ts[..k];
    assert ts[..|ts|] == ts;
    if Within(ts, square, limit) {
      assert 0 <= Level(ts[..|ts|], square) <= limit;
      forall k | 0 <= k <= |before| ensures 0 <= Level(before[..k], square) <= limit {
        assert 0 <= Level(ts[..k], square) <= limit;
      }
    }
    if Within(before, square, limit) && 0 <= Level(ts, square) <= limit {
      forall k | 0 <= k <= |ts| ensures 0 <= Level(ts[..k], square) <= limit {
        if k < |ts| { assert 0 <= Level(before[..k], square) <= limit; }
      }
    }
  }

  predicate NoSquare(ts: seq<Token>) {
    Sign('[') !in ts
  }

  ghost predicate Passes(rule: Rule, ts: seq<Token>) {
    && Within(ts, rule.AtMost?, Limit(rule)) && (rule.OneObject? ==> NoSquare(ts))
  }

  lemma {:induction false} TokenScans(rule: Rule, d: nat, t: Token)
    requires GoodToken(t) && d <= Limit(rule)
    ensures FeedAll(rule, At(d), PrintToken(t)) ==
            var e := d + LevelOf(t, rule.AtMost?);
            if 0 <= e <= Limit(rule) && (rule.OneObject? ==> t != Sign('[')) then At(e) else Rejected
  {
    match t
    case Literal(pieces) => QuoteIsSkipped(rule, d, pieces);
    case Sign(c) => FeedOne(rule, At(d), c);
  }

  /** The scanner follows the level of the tokens for as long as it stays within the limit. */
  lemma {:induction false} TokensScan(rule: Rule, ts: seq<Token>)
    requires forall t | t in ts :: GoodToken(t)
    ensures FeedAll(rule, START, PrintTokens(ts)) ==
            if Passes(rule, ts) && Level(ts, rule.AtMost?) >= 0 then At(Level(ts, rule.AtMost?)) else Rejected
    decreases |ts|
  {
    if ts != [] {
      var before, t, square := ts[..|ts| - 1], ts[|ts| - 1], rule.AtMost?;
      assert ts == before + [t];
      assert t in ts && forall u | u in before :: u in ts;
      FeedInTwo(rule, START, PrintTokens(before), PrintToken(t));
      TokensScan(rule, before);
      WithinOneMore(ts, square, Limit(rule));
      assert NoSquare(ts) <==> NoSquare(before) && t != Sign('[');
      if Passes(rule, before) && Level(before, square) >= 0 {
        LevelIsWithin(before, square, Limit(rule));
        TokenScans(rule, Level(before, square), t);
      } else {
        LevelIsWithin(before, square, Limit(rule));
        RejectedForGood(rule, PrintToken(t));
      }
    } else {
      assert ts[..0] == [];
    }
  }

  lemma {:induction false} LevelIsWithin(ts: seq<Token>, square: bool, limit: nat)
    ensures Within(ts, square, limit) ==> 0 <= Level(ts, square) <= limit
  {
    assert ts[..|ts|] == ts;
  }

  // ---- reading the tokens of an accepted text ----

  lemma {:induction false} ReadLiteral(rule: Rule, d: nat, s: string) returns (pieces: seq<Piece>, rest: string)
    requires var end := FeedAll(rule, Scanning(d, true, false), s);
             end.Scanning? && !end.quoted
    ensures GoodPieces(pieces) && s == PrintPieces(pieces) + (['"'] + rest)
    ensures FeedAll(rule, At(d), rest) == FeedAll(rule, Scanning(d, true, false), s)
    decreases |s|
  {
    RejectedForGood(rule, s[1..]);
    if s[0] == '"' {
      pieces, rest := [], s[1..];
      assert s == [] + (['"'] + rest);
    } else if s[0] == '\\' {
      assert s[1..] != [];
      RejectedForGood(rule, s[1..][1..]);
      assert s[1..][1..] == s[2..];
      pieces, rest := ReadLiteral(rule, d, s[2..]);
      OnePieceMore(Escaped(s[1]), pieces, rest);
      assert s == ['\\', s[1]] + s[2..];
      pieces := [Escaped(s[1])] + pieces;
    } else {
      pieces, rest := ReadLiteral(rule, d, s[1..]);
      OnePieceMore(Plain(s[0]), pieces, rest);
      assert s == [s[0]] + s[1..];
      pieces := [Plain(s[0])] + pieces;
    }
  }

  lemma {:induction false} OnePieceMore(p: Piece, pieces: seq<Piece>, rest: string)
    ensures PrintPieces([p] + pieces) + (['"'] + rest)
            == (match p case Plain(c) => [c] case Escaped(c) => ['\\', c]) + (PrintPieces(pieces) + (['"'] + rest))
  {
    assert ([p] + pieces)[1..] == pieces;
  }

  lemma {:induction false} Associates(a: string, b: string, c: string)
    ensures (a + b) + c == a + (b + c)
  {
  }

  lemma {:induction false} PrintFirst(t: Token, ts: seq<Token>)
    ensures PrintTokens([t] + ts) == PrintToken(t) + PrintTokens(ts)
    decreases |ts|
  {
    var all := [t] + ts;
    if ts == [] {
      assert all[..0] == [] && PrintTokens(all) == [] + PrintToken(t);
    } else {
      var before, last := ts[..|ts| - 1], ts[|ts| - 1];
      assert all[..|all| - 1] == [t] + before && all[|all| - 1] == last;
      PrintFirst(t, before);
      Associates(PrintToken(t), PrintTokens(before), PrintToken(last));
    }
  }

  lemma {:induction false} QuoteThenRest(pieces: seq<Piece>, rest: string)
    ensures Quote(pieces) + rest == ['"'] + (PrintPieces(pieces) + (['"'] + rest))
  {
  }

  lemma {:induction false} ReadTokens(rule: Rule, d: nat, s: string) returns (ts: seq<Token>)
    requires var end := FeedAll(rule, At(d), s);
             end.Scanning? && !end.quoted
    ensures s == PrintTokens(ts) && forall t | t in ts :: GoodToken(t)
    decreases |s|
  {
    if s == [] { return []; }
    RejectedForGood(rule, s[1..]);
    var first, later;
    if s[0] == '"' {
      var pieces, rest := ReadLiteral(rule, d, s[1..]);
      first := Literal(pieces);
      later := ReadTokens(rule, d, rest);
      QuoteThenRest(pieces, rest);
      assert s == ['"'] + s[1..];
    } else {
      first := Sign(s[0]);
      later := ReadTokens(rule, Feed(rule, At(d), s[0]).depth, s[1..]);
      assert s == [s[0]] + s[1..];
    }
    PrintFirst(first, later);
    ts := [first] + later;
  }

  lemma {:induction false} AnyTextScans(rule: Rule, s: string)
    ensures Accepts(rule, s) <==>
            exists ts :: Balances(s, ts, rule.AtMost?, Limit(rule)) && (rule.OneObject? ==> NoSquare(ts))
  {
    if Accepts(rule, s) {
      var ts := ReadTokens(rule, 0, s);
      TokensScan(rule, ts);
      assert Balances(s, ts, rule.AtMost?, Limit(rule));
    }
    forall ts | Balances(s, ts, rule.AtMost?, Limit(rule)) && (rule.OneObject? ==> NoSquare(ts))
      ensures Accepts(rule, s)
    {
      TokensScan(rule, ts);
    }
  }

  /** Any text whatever, JSON or not, passes the status scanner exactly if it consists of finished string literals
      and single characters, none of them NUL, and its braces and brackets outside the literals balance with at
      most eight open. */
  lemma {:induction false} StatusScanOfAnyText(s: string)
    ensures Accepts(AtMost(JSON_DEPTH), s) <==> exists ts :: Balances(s, ts, true, 8)
  {
    AnyTextScans(AtMost(JSON_DEPTH), s);
    var rule := AtMost(JSON_DEPTH);
    assert forall ts :: Balances(s, ts, true, 8) == Balances(s, ts, rule.AtMost?, Limit(rule));
  }

  /** And the flat scanner, if there is no opening bracket outside the literals, and the braces balance with at
      most one open. */
  lemma {:induction false} FlatScanOfAnyText(s: string)
    ensures Accepts(OneObject, s) <==> exists ts :: Balances(s, ts, false, 1) && Sign('[') !in ts
  {
    AnyTextScans(OneObject, s);
    if Accepts(OneObject, s) {
      var ts :| Balances(s, ts, OneObject.AtMost?, Limit(OneObject)) && NoSquare(ts);
      assert Balances(s, ts, false, 1) && Sign('[') !in ts;
    }
    forall ts | Balances(s, ts, false, 1) && Sign('[') !in ts ensures Accepts(OneObject, s) {
      assert Balances(s, ts, OneObject.AtMost?, Limit(OneObject)) && NoSquare(ts);
    }
  }

  // ---- JSON text: values with their layout ----

  /** A value as written: white space is part of it, and numbers and literals are kept as text. */
  datatype Value =
    | Scalar(text: string)
    | Str(pieces: seq<Piece>)
    | Arr(inner: string, items: Items)
    | Obj(inner: string, members: Members)

  datatype Items = NoItems | Item(before: string, value: Value, after: string, rest: Items)

  datatype Members =
    | NoMembers
    | Member(before: string, key: seq<Piece>, colonBefore: string, colonAfter: string, value: Value, after: string,
             rest: Members)

  function Print(v: Value): string {
    match v
    case Scalar(text) => text
    case Str(pieces) => Quote(pieces)
    case Arr(inner, items) => ['['] + (inner + (PrintItems(items, true) + [']']))
    case Obj(inner, members) => ['{'] + (inner + (PrintMembers(members, true) + ['}']))
  }

  function PrintItems(items: Items, first: bool): string {
    match items
    case NoItems => []
    case Item(before, value, after, rest) =>
      ((if first then [] else [',']) + before) + (Print(value) + (after + PrintItems(rest, false)))
  }

  function PrintMembers(members: Members, first: bool): string {
    match members
    case NoMembers => []
    case Member(before, key, colonBefore, colonAfter, value, after, rest) =>
      ((if first then [] else [',']) + before)
      + (Quote(key) + ((colonBefore + [':'] + colonAfter) + (Print(value) + (after + PrintMembers(rest, false)))))
  }

  predicate Blank(s: string) {
    forall c | c in s :: c in {' ', '\t', '\n', '\r'}
  }

  /** Numbers, `true`, `false` and `null` use none of the characters the scanners look at. */
  predicate Inert(s: string) {
    forall c | c in s :: c !in {'"', '{', '}', '[', ']', NUL}
  }

  predicate Good(v: Value) {
    match v
    case Scalar(text) => Inert(text)
    case Str(pieces) => GoodPieces(pieces)
    case Arr(inner, items) => Blank(inner) && GoodItems(items)
    case Obj(inner, members) => Blank(inner) && GoodMembers(members)
  }

  predicate GoodItems(items: Items) {
    match items
    case NoItems => true
    case Item(before, value, after, rest) => Blank(before) && Blank(after) && Good(value) && GoodItems(rest)
  }

  predicate GoodMembers(members: Members) {
    match members
    case NoMembers => true
    case Member(before, key, colonBefore, colonAfter, value, after, rest) =>
      Blank(before) && Blank(colonBefore) && Blank(colonAfter) && Blank(after) && GoodPieces(key) && Good(value)
      && GoodMembers(rest)
  }

  // ---- how deeply a value nests ----

  function Depth(v: Value): nat {
    match v
    case Scalar(_) => 0
    case Str(_) => 0
    case Arr(_, items) => 1 + ItemsDepth(items)
    case Obj(_, members) => 1 + MembersDepth(members)
  }

  function ItemsDepth(items: Items): nat {
    match items case NoItems => 0 case Item(_, value, _, rest) => Max(Depth(value), ItemsDepth(rest))
  }

  function MembersDepth(members: Members): nat {
    match members case NoMembers => 0 case Member(_, _, _, _, value, _, rest) => Max(Depth(value), MembersDepth(rest))
  }

  predicate HasArray(v: Value) {
    match v
    case Scalar(_) => false
    case Str(_) => false
    case Arr(_, _) => true
    case Obj(_, members) => MembersHaveArray(members)
  }

  predicate MembersHaveArray(members: Members) {
    match members
    case NoMembers => false
    case Member(_, _, _, _, value, _, rest) => HasArray(value) || MembersHaveArray(rest)
  }

  /** What a rule allows, starting from depth `d`. */
  predicate Allowed(rule: Rule, d: nat, v: Value) {
    d + Depth(v) <= Limit(rule) && (rule.OneObject? ==> !HasArray(v))
  }

  // ---- scanning printed values ----

  function At(d: nat): Scan {
    Scanning(d, false, false)
  }

  lemma {:induction false} InertIsSkipped(rule: Rule, d: nat, s: string)
    requires Inert(s)
    ensures FeedAll(rule, At(d), s) == At(d)
    decreases |s|
  {
    if s != [] {
      assert s[0] in s && forall c | c in s[1..] :: c in s;
      InertIsSkipped(rule, d, s[1..]);
    }
  }

  lemma {:induction false} PiecesAreSkipped(rule: Rule, d: nat, pieces: seq<Piece>)
    requires GoodPieces(pieces)
    ensures FeedAll(rule, Scanning(d, true, false), PrintPieces(pieces)) == Scanning(d, true, false)
    decreases |pieces|
  {
    if pieces != [] {
      var p, inside := pieces[0], Scanning(d, true, false);
      assert p in pieces;
      var head := match p case Plain(c) => [c] case Escaped(c) => ['\\', c];
      FeedInTwo(rule, inside, head, PrintPieces(pieces[1..]));
      if p.Plain? {
        assert head[1..] == [];
      } else {
        assert head[1..] == [p.c] && head[1..][1..] == [];
      }
      PiecesAreSkipped(rule, d, pieces[1..]);
    }
  }

  lemma {:induction false} QuoteIsSkipped(rule: Rule, d: nat, pieces: seq<Piece>)
    requires GoodPieces(pieces)
    ensures FeedAll(rule, At(d), Quote(pieces)) == At(d)
  {
    var inside := Scanning(d, true, false);
    FeedInTwo(rule, At(d), ['"'] + PrintPieces(pieces), ['"']);
    FeedInTwo(rule, At(d), ['"'], PrintPieces(pieces));
    PiecesAreSkipped(rule, d, pieces);
    FeedOne(rule, At(d), '"');
    FeedOne(rule, inside, '"');
  }

  lemma {:induction false} FeedOne(rule: Rule, st: Scan, c: char)
    ensures FeedAll(rule, st, [c]) == Feed(rule, st, c)
  {
    assert [c][1..] == [];
  }

  /** Skipped text in front changes nothing. */
  lemma {:induction false} AfterInert(rule: Rule, d: nat, skipped: string, s: string)
    requires Inert(skipped)
    ensures FeedAll(rule, At(d), skipped + s) == FeedAll(rule, At(d), s)
  {
    FeedInTwo(rule, At(d), skipped, s);
    InertIsSkipped(rule, d, skipped);
  }

  lemma {:induction false} BlankIsInert(s: string)
    requires Blank(s)
    ensures Inert(s) && Inert([','] + s)
  {
  }

  /** A printed value leaves the scanner where it was if its nesting is allowed, and rejected otherwise. */
  lemma {:induction false} ValueScans(rule: Rule, d: nat, v: Value)
    requires Good(v) && d <= Limit(rule)
    ensures FeedAll(rule, At(d), Print(v)) == if Allowed(rule, d, v) then At(d) else Rejected
    decreases v
  {
    match v
    case Scalar(text) => InertIsSkipped(rule, d, text);
    case Str(pieces) => QuoteIsSkipped(rule, d, pieces);
    case Arr(inner, items) =>
      if rule.AtMost? && d < Limit(rule) { ItemsScan(rule, d + 1, items, true); }
      BracketsScan(rule, d, '[', inner, PrintItems(items, true), ']', Depth(v) + d <= Limit(rule));
    case Obj(inner, members) =>
      if d < Limit(rule) { MembersScan(rule, d + 1, members, true); }
      BracketsScan(rule, d, '{', inner, PrintMembers(members, true), '}', Allowed(rule, d, v));
  }

  lemma {:induction false} BracketsScan(rule: Rule, d: nat, open: char, inner: string, body: string, close: char,
                                        allowed: bool)
    requires (open == '{' && close == '}') || (open == '[' && close == ']')
    requires Blank(inner) && d <= Limit(rule)
    requires EffectOf(rule, open).Opens? && d < Limit(rule) ==>
               FeedAll(rule, At(d + 1), body) == if allowed then At(d + 1) else Rejected
    ensures FeedAll(rule, At(d), [open] + (inner + (body + [close]))) ==
            if EffectOf(rule, open).Opens? && d < Limit(rule) && allowed then At(d) else Rejected
  {
    FeedInTwo(rule, At(d), [open], inner + (body + [close]));
    FeedOne(rule, At(d), open);
    if EffectOf(rule, open).Opens? && d < Limit(rule) {
      BlankIsInert(inner);
      AfterInert(rule, d + 1, inner, body + [close]);
      FeedInTwo(rule, At(d + 1), body, [close]);
      FeedOne(rule, At(d + 1), close);
      RejectedForGood(rule, [close]);
    } else {
      RejectedForGood(rule, inner + (body + [close]));
    }
  }

  lemma {:induction false} ItemsScan(rule: Rule, d: nat, items: Items, first: bool)
    requires GoodItems(items) && d <= Limit(rule) && rule.AtMost?
    ensures FeedAll(rule, At(d), PrintItems(items, first)) ==
            if d + ItemsDepth(items) <= Limit(rule) then At(d) else Rejected
    decreases items
  {
    if items.Item? {
      var tail := items.after + PrintItems(items.rest, false);
      BlankIsInert(items.before);
      BlankIsInert(items.after);
      AfterInert(rule, d, (if first then [] else [',']) + items.before, Print(items.value) + tail);
      FeedInTwo(rule, At(d), Print(items.value), tail);
      ValueScans(rule, d, items.value);
      RejectedForGood(rule, tail);
      AfterInert(rule, d, items.after, PrintItems(items.rest, false));
      ItemsScan(rule, d, items.rest, false);
    }
  }

  lemma {:induction false} MembersScan(rule: Rule, d: nat, members: Members, first: bool)
    requires GoodMembers(members) && d <= Limit(rule)
    ensures FeedAll(rule, At(d), PrintMembers(members, first)) ==
            if d + MembersDepth(members) <= Limit(rule) && (rule.OneObject? ==> !MembersHaveArray(members))
            then At(d) else Rejected
    decreases members
  {
    if members.Member? {
      var Member(before, key, colonBefore, colonAfter, value, after, rest) := members;
      var tail := after + PrintMembers(rest, false);
      var colon := colonBefore + [':'] + colonAfter;
      BlankIsInert(before);
      BlankIsInert(colonBefore);
      BlankIsInert(colonAfter);
      BlankIsInert(after);
      AfterInert(rule, d, (if first then [] else [',']) + before, Quote(key) + (colon + (Print(value) + tail)));
      FeedInTwo(rule, At(d), Quote(key), colon + (Print(value) + tail));
      QuoteIsSkipped(rule, d, key);
      AfterInert(rule, d, colon, Print(value) + tail);
      FeedInTwo(rule, At(d), Print(value), tail);
      ValueScans(rule, d, value);
      RejectedForGood(rule, tail);
      AfterInert(rule, d, after, PrintMembers(rest, false));
      MembersScan(rule, d, rest, false);
    }
  }

  lemma {:induction false} DocumentScans(rule: Rule, before: string, v: Value, after: string)
    requires Good(v) && Blank(before) && Blank(after)
    ensures Accepts(rule, before + Print(v) + after) <==> Allowed(rule, 0, v)
  {
    BlankIsInert(before);
    BlankIsInert(after);
    assert before + Print(v) + after == before + (Print(v) + after);
    AfterInert(rule, 0, before, Print(v) + after);
    FeedInTwo(rule, START, Print(v), after);
    ValueScans(rule, 0, v);
    InertIsSkipped(rule, 0, after);
    RejectedForGood(rule, after);
  }

  /** Whatever its layout and its string escapes, the text of a JSON value passes the status scanner
      exactly when its containers nest at most eight deep. */
  lemma {:induction false} StatusScanIsExact(before: string, v: Value, after: string)
    requires Good(v) && Blank(before) && Blank(after)
    ensures Accepts(AtMost(JSON_DEPTH), before + Print(v) + after) <==> Depth(v) <= 8
  {
    DocumentScans(AtMost(JSON_DEPTH), before, v, after);
  }

  /** The flat scanner passes exactly the values without arrays and without an object in an object. */
  lemma {:induction false} FlatScanIsExact(before: string, v: Value, after: string)
    requires Good(v) && Blank(before) && Blank(after)
    ensures Accepts(OneObject, before + Print(v) + after) <==> Depth(v) <= 1 && !HasArray(v)
  {
    DocumentScans(OneObject, before, v, after);
  }
}
