/** Mapping a plugin's declared table names onto its namespace, without touching literals,
    comments or anything else. The one-pass scanner is proved against a lexer and a printer. */
module SqlRewrite {

  /** `rest` is a literal after its opening quote, closing quote included if there is one. `Tail`
      is an identifier that never closes, with everything after it. */
  datatype Token =
    | Literal(quote: char, rest: string)
    | LineComment(text: string)
    | BlockComment(text: string)
    | Ident(name: string)
    | Tail(text: string)
    | Char(c: char)

  function Text(t: Token): string {
    match t
    case Literal(quote, rest) => [quote] + rest
    case LineComment(text) => text
    case BlockComment(text) => text
    case Ident(name) => "`" + name + "`"
    case Tail(text) => text
    case Char(c) => [c]
  }

  function Print(tokens: seq<Token>): string {
    if tokens == [] then "" else Text(tokens[0]) + Print(tokens[1..])
  }

  // ---- how far each token reaches ----

  /** Up to and including the closing quote; a doubled quote does not close. */
  function LiteralLength(quote: char, s: string): (n: nat)
    ensures n <= |s|
  {
    if s == "" then 0
    else if s[0] != quote then 1 + LiteralLength(quote, s[1..])
    else if |s| > 1 && s[1] == quote then 2 + LiteralLength(quote, s[2..])
    else 1
  }

  function LineLength(s: string): (n: nat)
    ensures n <= |s|
  {
    if s == "" || s[0] == '\n' then 0 else 1 + LineLength(s[1..])
  }

  /** Up to and including the closing mark. */
  function BlockLength(s: string): (n: nat)
    ensures n <= |s|
  {
    if s == "" then 0
    else if s[0] == '*' && |s| > 1 && s[1] == '/' then 2
    else 1 + BlockLength(s[1..])
  }

  /** The index of the next backtick, or the length. */
  function TickIndex(s: string): (n: nat)
    ensures n <= |s| && (n < |s| ==> s[n] == '`') && forall i | 0 <= i < n :: s[i] != '`'
  {
    if s == "" || s[0] == '`' then 0 else 1 + TickIndex(s[1..])
  }

  predicate StartsLine(s: string) { |s| > 1 && s[0] == '-' && s[1] == '-' }

  predicate StartsBlock(s: string) { |s| > 1 && s[0] == '/' && s[1] == '*' }

  function LexOne(s: string): (t: Token)
    requires s != ""
    ensures 0 < |Text(t)| <= |s| && Text(t) == s[..|Text(t)|]
    ensures t.Ident? ==> '`' !in t.name
  {
    if s[0] == '\'' || s[0] == '"' then
      var n := LiteralLength(s[0], s[1..]);
      assert [s[0]] + s[1..1 + n] == s[..1 + n];
      Literal(s[0], s[1..1 + n])
    else if StartsLine(s) then LineComment(s[..2 + LineLength(s[2..])])
    else if StartsBlock(s) then BlockComment(s[..2 + BlockLength(s[2..])])
    else if s[0] == '`' then
      var e := TickIndex(s[1..]);
      if e == |s| - 1 then Tail(s) else
        assert "`" + s[1..1 + e] + "`" == s[..2 + e];
        Ident(s[1..1 + e])
    else Char(s[0])
  }

  function Rest(s: string): string
    requires s != ""
  {
    s[|Text(LexOne(s))|..]
  }

  function Lex(s: string): seq<Token>
    decreases |s|
  {
    if s == "" then [] else [LexOne(s)] + Lex(Rest(s))
  }

  /** Printing what was lexed is the statement itself. */
  lemma {:induction false} PrintLex(s: string)
    ensures Print(Lex(s)) == s
    decreases |s|
  {
    hide LexOne, Text;
    if s != "" {
      LexCons(s);
      hide Lex, Print;
      PrintLex(Rest(s));
      PrintCons(LexOne(s), Lex(Rest(s)));
    }
  }

  /** A statement is its first token and the rest. */
  lemma LexCons(s: string)
    requires s != ""
    ensures Lex(s) == [LexOne(s)] + Lex(Rest(s)) && s == Text(LexOne(s)) + Rest(s)
  {
    hide LexOne, Text;
    var n := |Text(LexOne(s))|;
    assert s == s[..n] + s[n..];
  }

  lemma PrintCons(t: Token, tokens: seq<Token>)
    ensures Print([t] + tokens) == Text(t) + Print(tokens)
  {
    hide Text;
    assert ([t] + tokens)[1..] == tokens;
  }

  // ---- the rewrite ----

  datatype Namespace = Namespace(prefix: string, tables: set<string>)
  {
    /** A manifest's prefix: not empty, and no backtick in it. */
    predicate Valid() { prefix != "" && '`' !in prefix }

    function Rename(t: Token): Token {
      if t.Ident? && t.name in tables then Ident(prefix + t.name) else t
    }

    function RenameAll(tokens: seq<Token>): seq<Token> {
      if tokens == [] then [] else [Rename(tokens[0])] + RenameAll(tokens[1..])
    }

    function Rewritten(s: string): string { Print(RenameAll(Lex(s))) }
  }

  lemma RewrittenCons(ns: Namespace, s: string)
    requires s != ""
    ensures ns.Rewritten(s) == Text(ns.Rename(LexOne(s))) + ns.Rewritten(Rest(s))
  {
  }

  lemma OneTokenOn(ns: Namespace, query: string, i: nat)
    requires i < |query|
    ensures var t := LexOne(query[i..]);
            0 < |Text(t)| <= |query| - i &&
            ns.Rewritten(query[i..]) == Text(ns.Rename(t)) + ns.Rewritten(query[i + |Text(t)|..])
  {
    var s := query[i..];
    RewrittenCons(ns, s);
    hide LexOne, Text, Namespace.Rewritten, Namespace.Rename;
    assert s[|Text(LexOne(s))|..] == query[i + |Text(LexOne(s))|..];
  }

  lemma Associates(a: string, b: string, c: string)
    ensures (a + b) + c == a + (b + c)
  {
  }

  class PluginDb {
    const ns: Namespace

    constructor (ns: Namespace)
      ensures this.ns == ns
    {
      this.ns := ns;
    }

    /** A literal is copied through untouched; `i` is just past its opening quote. */
    static method CopyLiteral(runes: string, i: nat) returns (out: string, next: nat)
      requires 0 < i <= |runes|
      ensures next == i + LiteralLength(runes[i - 1], runes[i..]) && out == runes[i..next]
    {
      hide LiteralLength;
      var quote := runes[i - 1];
      out, next := "", i;
      while next < |runes|
        invariant i <= next <= |runes| && out == runes[i..next]
        invariant i + LiteralLength(quote, runes[i..]) == next + LiteralLength(quote, runes[next..])
      {
        LiteralUnfolds(quote, runes[next..]);
        assert runes[next..][1..] == runes[next + 1..];
        out := out + [runes[next]];
        if runes[next] == quote {
          if next + 1 < |runes| && runes[next + 1] == quote {
            assert runes[next..][2..] == runes[next + 2..];
            out := out + [quote];
            next := next + 2;
            continue;
          }
          return out, next + 1;
        }
        next := next + 1;
      }
      LiteralUnfolds(quote, runes[next..]);
    }

    static method CopyLine(runes: string, i: nat) returns (out: string, next: nat)
      requires i <= |runes|
      ensures next == i + LineLength(runes[i..]) && out == runes[i..next]
    {
      out, next := "", i;
      while next < |runes| && runes[next] != '\n'
        invariant i <= next <= |runes| && out == runes[i..next]
        invariant i + LineLength(runes[i..]) == next + LineLength(runes[next..])
      {
        assert runes[next..][1..] == runes[next + 1..];
        out := out + [runes[next]];
        next := next + 1;
      }
    }

    static method CopyBlock(runes: string, i: nat) returns (out: string, next: nat)
      requires i <= |runes|
      ensures next == i + BlockLength(runes[i..]) && out == runes[i..next]
    {
      out, next := "", i;
      while next < |runes|
        invariant i <= next <= |runes| && out == runes[i..next]
        invariant i + BlockLength(runes[i..]) == next + BlockLength(runes[next..])
      {
        if runes[next] == '*' && next + 1 < |runes| && runes[next + 1] == '/' {
          return out + "*/", next + 2;
        }
        assert runes[next..][1..] == runes[next + 1..];
        out := out + [runes[next]];
        next := next + 1;
      }
    }

    static method FindTick(runes: string, i: nat) returns (end: nat)
      requires i <= |runes|
      ensures end == i + TickIndex(runes[i..])
    {
      end := i;
      while end < |runes| && runes[end] != '`'
        invariant i <= end <= |runes|
        invariant i + TickIndex(runes[i..]) == end + TickIndex(runes[end..])
      {
        assert runes[end..][1..] == runes[end + 1..];
        end := end + 1;
      }
    }

    /** The scan over the whole statement. */
    method Rewrite(query: string) returns (out: string)
      ensures out == ns.Rewritten(query)
    {
      assert ns.Rewritten("") == "";
      hide Namespace.Rewritten, LexOne, Text, Namespace.Rename;
      ghost var whole := ns.Rewritten(query);
      out := "";
      var i := 0;
      assert query[0..] == query && "" + whole == whole;
      while i < |query|
        invariant 0 <= i <= |query| && out + ns.Rewritten(query[i..]) == whole
      {
        OneTokenOn(ns, query, i);
        var text, next := ScanOne(query, i);
        Associates(out, text, ns.Rewritten(query[next..]));
        out := out + text;
        i := next;
      }
      assert query[i..] == "" && out + "" == out;
    }

    method ScanOne(runes: string, i: nat) returns (text: string, next: nat)
      requires i < |runes|
      ensures var t := LexOne(runes[i..]); next == i + |Text(t)| && text == Text(ns.Rename(t))
    {
      hide LexOne, Text, LiteralLength, LineLength, BlockLength, TickIndex;
      if runes[i] == '\'' || runes[i] == '"' {
        text, next := CopyLiteral(runes, i + 1);
        LiteralAt(runes, i, text, next);
        text := [runes[i]] + text;
      } else if runes[i] == '-' && i + 1 < |runes| && runes[i + 1] == '-' {
        text, next := CopyLine(runes, i + 2);
        LineAt(runes, i, text, next);
        text := "--" + text;
      } else if runes[i] == '/' && i + 1 < |runes| && runes[i + 1] == '*' {
        text, next := CopyBlock(runes, i + 2);
        BlockAt(runes, i, text, next);
        text := "/*" + text;
      } else if runes[i] == '`' {
        var end := FindTick(runes, i + 1);
        TickAt(runes, i, end);
        if end >= |runes| {
          return runes[i..], |runes|;
        }
        var name := runes[i + 1..end];
        text := if name in ns.tables then "`" + (ns.prefix + name) + "`" else "`" + name + "`";
        next := end + 1;
      } else {
        PlainAt(runes, i);
        text, next := [runes[i]], i + 1;
      }
    }
  }

  // The scan's branches are the lexer's.

  predicate Copied(t: Token, text: string, length: int) { !t.Ident? && Text(t) == text && |text| == length }

  lemma LiteralAt(runes: string, i: nat, text: string, next: nat)
    requires i < |runes| && (runes[i] == '\'' || runes[i] == '"')
    requires next == i + 1 + LiteralLength(runes[i], runes[i + 1..]) && text == runes[i + 1..next]
    ensures Copied(LexOne(runes[i..]), [runes[i]] + text, next - i)
  {
    assert runes[i..][1..] == runes[i + 1..];
  }

  lemma LineAt(runes: string, i: nat, text: string, next: nat)
    requires i + 1 < |runes| && runes[i] == '-' && runes[i + 1] == '-'
    requires next == i + 2 + LineLength(runes[i + 2..]) && text == runes[i + 2..next]
    ensures Copied(LexOne(runes[i..]), "--" + text, next - i)
  {
    hide LineLength;
    assert runes[i..][2..] == runes[i + 2..];
    assert runes[i..][..next - i] == "--" + text;
  }

  lemma BlockAt(runes: string, i: nat, text: string, next: nat)
    requires i + 1 < |runes| && runes[i] == '/' && runes[i + 1] == '*'
    requires next == i + 2 + BlockLength(runes[i + 2..]) && text == runes[i + 2..next]
    ensures Copied(LexOne(runes[i..]), "/*" + text, next - i)
  {
    hide BlockLength;
    assert runes[i..][2..] == runes[i + 2..];
    assert runes[i..][..next - i] == "/*" + text;
  }

  lemma TickAt(runes: string, i: nat, end: nat)
    requires i < |runes| && runes[i] == '`' && end == i + 1 + TickIndex(runes[i + 1..])
    ensures end >= |runes| ==> Copied(LexOne(runes[i..]), runes[i..], |runes| - i)
    ensures end < |runes| ==> LexOne(runes[i..]) == Ident(runes[i + 1..end]) && |Text(LexOne(runes[i..]))| == end + 1 - i
    ensures forall name :: Text(Ident(name)) == "`" + name + "`"
  {
    hide TickIndex, LexOne;
    var s := runes[i..];
    LexTick(s);
    assert s[1..] == runes[i + 1..];
    if end < |runes| {
      assert s[1..1 + (end - i - 1)] == runes[i + 1..end];
    }
  }

  lemma LexTick(s: string)
    requires s != "" && s[0] == '`'
    ensures var e := TickIndex(s[1..]); LexOne(s) == if e == |s| - 1 then Tail(s) else Ident(s[1..1 + e])
  {
    hide TickIndex, LiteralLength, LineLength, BlockLength;
  }

  lemma PlainAt(runes: string, i: nat)
    requires i < |runes| && runes[i] != '\'' && runes[i] != '"' && runes[i] != '`'
    requires !(i + 1 < |runes| && runes[i] == '-' && runes[i + 1] == '-')
    requires !(i + 1 < |runes| && runes[i] == '/' && runes[i + 1] == '*')
    ensures Copied(LexOne(runes[i..]), [runes[i]], 1)
  {
  }

  // ---- the tokens, by what they look like ----

  /** Every quote in it is doubled. */
  predicate Escaped(quote: char, s: string) {
    s == "" ||
    (if s[0] != quote then Escaped(quote, s[1..]) else |s| > 1 && s[1] == quote && Escaped(quote, s[2..]))
  }

  predicate NoClosingMark(s: string) { forall i | 0 <= i < |s| - 1 :: !(s[i] == '*' && s[i + 1] == '/') }

  /** `t` may stand before `rest`: a literal runs to its first undoubled quote, a line comment to the end
      of the line, a block comment through its first closing mark, an identifier to its next backtick,
      and each to the end of the statement where that is missing; anything else is one character. */
  predicate IsToken(t: Token, rest: string) {
    match t
    case Literal(quote, body) =>
      (quote == '\'' || quote == '"') &&
      ((body != "" && body[|body| - 1] == quote && Escaped(quote, body[..|body| - 1]) && !(rest != "" && rest[0] == quote))
       || (rest == "" && Escaped(quote, body)))
    case LineComment(text) => StartsLine(text) && '\n' !in text && (rest == "" || rest[0] == '\n')
    case BlockComment(text) =>
      StartsBlock(text) &&
      ((|text| >= 4 && text[|text| - 2..] == "*/" && NoClosingMark(text[2..|text| - 2]))
       || (rest == "" && NoClosingMark(text[2..])))
    case Ident(name) => '`' !in name
    case Tail(text) => text != "" && text[0] == '`' && '`' !in text[1..] && rest == ""
    case Char(c) => c !in "'\"`" && !StartsLine([c] + rest) && !StartsBlock([c] + rest)
  }

  /** Only the first characters decide which way a literal goes on. */
  lemma LiteralUnfolds(quote: char, s: string)
    ensures s != "" && s[0] != quote ==> LiteralLength(quote, s) == 1 + LiteralLength(quote, s[1..])
    ensures |s| > 1 && s[0] == quote && s[1] == quote ==> LiteralLength(quote, s) == 2 + LiteralLength(quote, s[2..])
    ensures s != "" && s[0] == quote && !(|s| > 1 && s[1] == quote) ==> LiteralLength(quote, s) == 1
    ensures s == "" ==> LiteralLength(quote, s) == 0
  {
  }

  lemma {:induction false} LiteralLengthMeans(quote: char, s: string)
    requires quote == '\'' || quote == '"'
    ensures var n := LiteralLength(quote, s); IsToken(Literal(quote, s[..n]), s[n..])
  {
    hide LiteralLength;
    LiteralUnfolds(quote, s);
    var n := LiteralLength(quote, s);
    if s != "" {
      if s[0] != quote {
        LiteralLengthMeans(quote, s[1..]);
        OneCharOn(quote, s, n, 1);
      } else if |s| > 1 && s[1] == quote {
        LiteralLengthMeans(quote, s[2..]);
        OneCharOn(quote, s, n, 2);
      } else {
        assert s[..1][..0] == "";
      }
    }
  }

  /** A plain character, or a doubled quote, ahead of a literal's body makes a longer body. */
  lemma OneCharOn(quote: char, s: string, n: nat, k: nat)
    requires k <= n <= |s| && (quote == '\'' || quote == '"')
    requires (k == 1 && s[0] != quote) || (k == 2 && s[0] == s[1] == quote)
    requires IsToken(Literal(quote, s[k..][..n - k]), s[k..][n - k..])
    ensures IsToken(Literal(quote, s[..n]), s[n..])
  {
    var body, tail := s[..n], s[k..][..n - k];
    assert body[k..] == tail && s[n..] == s[k..][n - k..];
    if tail != "" {
      assert body[..n - 1][k..] == tail[..|tail| - 1];
    }
  }

  lemma {:induction false} LiteralLengthIs(quote: char, body: string, rest: string)
    requires Escaped(quote, body)
    ensures !(rest != "" && rest[0] == quote) ==> LiteralLength(quote, body + [quote] + rest) == |body| + 1
    ensures LiteralLength(quote, body) == |body|
  {
    hide LiteralLength;
    var all := body + [quote] + rest;
    LiteralUnfolds(quote, all);
    LiteralUnfolds(quote, body);
    if body != "" {
      var k := if body[0] != quote then 1 else 2;
      assert all[k..] == body[k..] + [quote] + rest;
      LiteralLengthIs(quote, body[k..], rest);
    }
  }

  lemma {:induction false} LineLengthMeans(s: string)
    ensures var n := LineLength(s); '\n' !in s[..n] && (n < |s| ==> s[n] == '\n')
  {
    if s != "" && s[0] != '\n' {
      LineLengthMeans(s[1..]);
      var n := LineLength(s);
      assert s[..n] == [s[0]] + s[1..][..n - 1];
    }
  }

  lemma {:induction false} LineLengthIs(text: string, rest: string)
    requires '\n' !in text && (rest == "" || rest[0] == '\n')
    ensures LineLength(text + rest) == |text|
  {
    if text == "" {
      assert text + rest == rest;
    } else {
      assert (text + rest)[1..] == text[1..] + rest;
      LineLengthIs(text[1..], rest);
    }
  }

  lemma {:induction false} BlockLengthMeans(s: string)
    ensures var n := BlockLength(s);
            || (n >= 2 && s[n - 2] == '*' && s[n - 1] == '/' && NoClosingMark(s[..n - 2]))
            || (n == |s| && NoClosingMark(s))
  {
    if s != "" && !(s[0] == '*' && |s| > 1 && s[1] == '/') {
      BlockLengthMeans(s[1..]);
      var n := BlockLength(s);
      if n >= 3 && NoClosingMark(s[1..][..n - 3]) {
        assert s[..n - 2] == [s[0]] + s[1..][..n - 3];
      }
      if NoClosingMark(s[1..]) {
        assert s == [s[0]] + s[1..];
      }
    }
  }

  lemma {:induction false} BlockLengthIs(body: string, rest: string)
    requires NoClosingMark(body)
    ensures BlockLength(body + "*/" + rest) == |body| + 2
    ensures BlockLength(body) == |body|
  {
    var all := body + "*/" + rest;
    if body != "" {
      assert all[1..] == body[1..] + "*/" + rest;
      assert NoClosingMark(body[1..]);
      BlockLengthIs(body[1..], rest);
    }
  }

  lemma {:induction false} TickAfter(name: string, rest: string)
    requires '`' !in name
    ensures TickIndex(name + "`" + rest) == |name|
  {
    if name != "" {
      assert (name + "`" + rest)[1..] == name[1..] + "`" + rest;
      TickAfter(name[1..], rest);
    }
  }

  lemma LexIdent(name: string, rest: string)
    requires '`' !in name
    ensures LexOne("`" + name + "`" + rest) == Ident(name)
  {
    TickAfter(name, rest);
    assert ("`" + name + "`" + rest)[1..] == name + "`" + rest;
  }

  lemma {:induction false} NoTickBefore(text: string)
    requires '`' !in text
    ensures TickIndex(text) == |text|
  {
    if text != "" { NoTickBefore(text[1..]); }
  }

  lemma LexComment(s: string)
    requires StartsLine(s) || StartsBlock(s)
    ensures StartsLine(s) ==> LexOne(s) == LineComment(s[..2 + LineLength(s[2..])])
    ensures StartsBlock(s) ==> LexOne(s) == BlockComment(s[..2 + BlockLength(s[2..])])
  {
    hide TickIndex, LiteralLength, LineLength, BlockLength;
  }

  lemma LexLiteral(s: string)
    requires s != "" && (s[0] == '\'' || s[0] == '"')
    ensures LexOne(s) == Literal(s[0], s[1..1 + LiteralLength(s[0], s[1..])])
  {
    hide LiteralLength, LineLength, BlockLength, TickIndex;
  }

  lemma LexedLiteral(s: string)
    requires s != "" && (s[0] == '\'' || s[0] == '"')
    ensures IsToken(LexOne(s), Rest(s))
  {
    LexLiteral(s);
    LiteralLengthMeans(s[0], s[1..]);
    hide LiteralLength, LexOne, Escaped, IsToken;
    var n := LiteralLength(s[0], s[1..]);
    assert s[1..1 + n] == s[1..][..n] && Rest(s) == s[1..][n..];
  }

  lemma LexedLine(s: string)
    requires StartsLine(s)
    ensures IsToken(LexOne(s), Rest(s))
  {
    LexComment(s);
    LineLengthMeans(s[2..]);
    hide LineLength, LexOne;
    var n := LineLength(s[2..]);
    assert s[..2 + n] == "--" + s[2..][..n];
    assert Rest(s) == s[2..][n..];
  }

  lemma LexedBlock(s: string)
    requires StartsBlock(s)
    ensures IsToken(LexOne(s), Rest(s))
  {
    LexComment(s);
    BlockLengthMeans(s[2..]);
    hide BlockLength, LexOne, NoClosingMark;
    var n := BlockLength(s[2..]);
    var text := s[..2 + n];
    assert Rest(s) == s[2 + n..] && StartsBlock(text);
    if n == |s| - 2 { assert text[2..] == s[2..]; }
    if n >= 2 {
      assert text[|text| - 2..] == [s[n], s[n + 1]];
      assert text[2..|text| - 2] == s[2..][..n - 2];
    }
  }

  lemma LexedTick(s: string)
    requires s != "" && s[0] == '`'
    ensures IsToken(LexOne(s), Rest(s))
  {
    LexTick(s);
    hide LexOne, TickIndex;
  }

  lemma LexedChar(s: string)
    requires s != "" && s[0] !in "'\"`" && !StartsLine(s) && !StartsBlock(s)
    ensures IsToken(LexOne(s), Rest(s))
  {
    hide LiteralLength, LineLength, BlockLength, TickIndex;
    assert s == [s[0]] + s[1..];
  }

  /** Every token the lexer takes off a statement has the look of one before what it leaves. */
  lemma LexedIsToken(s: string)
    requires s != ""
    ensures IsToken(LexOne(s), Rest(s))
  {
    hide LexOne, IsToken, Rest;
    if s[0] == '\'' || s[0] == '"' { LexedLiteral(s); }
    else if StartsLine(s) { LexedLine(s); }
    else if StartsBlock(s) { LexedBlock(s); }
    else if s[0] == '`' { LexedTick(s); }
    else { LexedChar(s); }
  }

  lemma LiteralReaches(quote: char, body: string, rest: string)
    requires IsToken(Literal(quote, body), rest)
    ensures LiteralLength(quote, body + rest) == |body|
  {
    hide LiteralLength, Escaped;
    if rest == "" && Escaped(quote, body) {
      LiteralLengthIs(quote, body, "");
      assert body + rest == body;
    } else {
      var inner := body[..|body| - 1];
      assert body == inner + [quote];
      LiteralLengthIs(quote, inner, rest);
    }
  }

  lemma TokenIsLiteral(quote: char, body: string, rest: string)
    requires IsToken(Literal(quote, body), rest)
    ensures LexOne([quote] + body + rest) == Literal(quote, body)
  {
    LiteralReaches(quote, body, rest);
    hide LiteralLength, Escaped, LexOne;
    var s := [quote] + body + rest;
    assert s[1..] == body + rest && s[0] == quote;
    LexLiteral(s);
    assert s[1..1 + |body|] == body;
  }

  lemma TokenIsComment(t: Token, rest: string)
    requires (t.LineComment? || t.BlockComment?) && IsToken(t, rest)
    ensures LexOne(Text(t) + rest) == t
  {
    hide LineLength, BlockLength, LexOne, NoClosingMark;
    var s, body := t.text + rest, t.text[2..];
    assert s[..2] == t.text[..2] && s[2..] == body + rest;
    assert s[0] == t.text[0] && s[1] == t.text[1];
    LexComment(s);
    if t.LineComment? {
      LineLengthIs(body, rest);
    } else if rest == "" && NoClosingMark(body) {
      BlockLengthIs(body, "");
      assert body + rest == body;
    } else {
      var inner := t.text[2..|t.text| - 2];
      assert body == inner + "*/";
      BlockLengthIs(inner, rest);
      assert body + rest == inner + "*/" + rest;
    }
    assert s[..2 + |body|] == t.text;
  }

  /** And whatever looks like a token before a rest is the token the lexer takes there: the look decides
      the lexing. */
  lemma TokenIsLexed(t: Token, rest: string)
    requires IsToken(t, rest)
    ensures Text(t) + rest != "" && LexOne(Text(t) + rest) == t && Rest(Text(t) + rest) == rest
  {
    hide LiteralLength, LineLength, BlockLength, TickIndex, Escaped, NoClosingMark;
    match t {
      case Literal(quote, body) => TokenIsLiteral(quote, body, rest);
      case LineComment(_) => TokenIsComment(t, rest);
      case BlockComment(_) => TokenIsComment(t, rest);
      case Ident(name) => LexIdent(name, rest);
      case Tail(text) =>
        assert text + rest == text;
        LexTick(text);
        NoTickBefore(text[1..]);
      case Char(c) => assert [c] + rest == Text(t) + rest;
    }
  }

  lemma RenamedText(ns: Namespace, t: Token)
    ensures Text(ns.Rename(t)) == if t.Ident? && t.name in ns.tables then "`" + ns.prefix + t.name + "`" else Text(t)
  {
    if t.Ident? { assert "`" + (ns.prefix + t.name) + "`" == "`" + ns.prefix + t.name + "`"; }
  }

  // ---- what the rewrite leaves alone ----

  /** Nothing follows, or the same character does. */
  predicate SameStart(a: string, b: string) { a == b == "" || (a != "" && b != "" && a[0] == b[0]) }

  /** How a token looks depends on what follows only through the next character. */
  lemma SameLook(t: Token, a: string, b: string)
    requires SameStart(a, b) && IsToken(t, a)
    ensures IsToken(t, b)
  {
    hide Escaped, NoClosingMark;
    if t.Char? && a != "" {
      assert ([t.c] + a)[1] == a[0] && ([t.c] + b)[1] == b[0];
    }
  }

  /** So does where it ends. */
  lemma LexLocal(s: string, rest: string)
    requires s != "" && SameStart(Rest(s), rest)
    ensures LexOne(Text(LexOne(s)) + rest) == LexOne(s)
  {
    hide LexOne, IsToken, Rest;
    LexedIsToken(s);
    SameLook(LexOne(s), Rest(s), rest);
    TokenIsLexed(LexOne(s), rest);
  }

  lemma {:induction false} RewrittenStartsTheSame(ns: Namespace, s: string)
    ensures SameStart(s, ns.Rewritten(s))
  {
    if s != "" {
      RewrittenCons(ns, s);
    }
  }

  /** Lexing the output gives the statement's own tokens with declared tables renamed: literals,
      comments, other identifiers and unterminated tails are all still what they were. */
  lemma {:induction false} RelexGivesRenamedTokens(ns: Namespace, s: string)
    requires ns.Valid()
    ensures Lex(ns.Rewritten(s)) == ns.RenameAll(Lex(s))
    decreases |s|
  {
    if s != "" {
      var t, rest := LexOne(s), ns.Rewritten(Rest(s));
      RewrittenCons(ns, s);
      RewrittenStartsTheSame(ns, Rest(s));
      LexLocal(s, rest);
      if t.Ident? && t.name in ns.tables {
        LexIdent(ns.prefix + t.name, rest);
        assert Text(ns.Rename(t)) + rest == "`" + (ns.prefix + t.name) + "`" + rest;
      }
      assert Rest(Text(ns.Rename(t)) + rest) == rest;
      RelexGivesRenamedTokens(ns, Rest(s));
    }
  }

  /** A declared name whose namespaced form is declared as well. */
  ghost predicate Clashes(ns: Namespace) {
    exists name :: name in ns.tables && '`' !in name && ns.prefix + name in ns.tables
  }

  lemma {:induction false} RenameTwice(ns: Namespace, s: string)
    requires !Clashes(ns)
    ensures ns.RenameAll(ns.RenameAll(Lex(s))) == ns.RenameAll(Lex(s))
    decreases |s|
  {
    if s != "" {
      var t := LexOne(s);
      assert t.Ident? ==> '`' !in t.name;
      RenameTwice(ns, Rest(s));
    }
  }

  /** Rewriting what is already rewritten changes nothing, for every statement, if and only if no
      declared table's namespaced name is itself declared. */
  lemma RewriteIsIdempotent(ns: Namespace)
    requires ns.Valid()
    ensures (forall s :: ns.Rewritten(ns.Rewritten(s)) == ns.Rewritten(s)) <==> !Clashes(ns)
  {
    if Clashes(ns) {
      var name :| name in ns.tables && '`' !in name && ns.prefix + name in ns.tables;
      var s := "`" + name + "`";
      OneIdent(ns, name);
      OneIdent(ns, ns.prefix + name);
      assert ns.Rewritten(ns.Rewritten(s)) != ns.Rewritten(s);
    } else {
      forall s ensures ns.Rewritten(ns.Rewritten(s)) == ns.Rewritten(s) {
        RelexGivesRenamedTokens(ns, s);
        RenameTwice(ns, s);
      }
    }
  }

  lemma OneIdent(ns: Namespace, name: string)
    requires '`' !in name && name in ns.tables
    ensures ns.Rewritten("`" + name + "`") == "`" + (ns.prefix + name) + "`"
  {
    var s := "`" + name + "`";
    assert s == "`" + name + "`" + "";
    LexIdent(name, "");
    RewrittenCons(ns, s);
    assert Rest(s) == "";
  }

  /** So the rewrite goes token by token: a backticked declared name takes the prefix, and everything
      else, whatever names it may contain, stands as it is. */
  lemma RewritesTokenByToken(ns: Namespace, t: Token, rest: string)
    requires IsToken(t, rest)
    ensures ns.Rewritten(Text(t) + rest) ==
              (if t.Ident? && t.name in ns.tables then "`" + ns.prefix + t.name + "`" else Text(t)) + ns.Rewritten(rest)
    ensures ns.Rewritten("") == ""
  {
    NothingToRewrite(ns);
    hide LexOne, IsToken, Rest, Text, Namespace.Rewritten, Namespace.Rename;
    TokenIsLexed(t, rest);
    RewrittenCons(ns, Text(t) + rest);
    RenamedText(ns, t);
  }

  lemma NothingToRewrite(ns: Namespace)
    ensures ns.Rewritten("") == ""
  {
  }
}
