/**
 * `check_sql_injection` (main.py): a scan of the statements sqlparse produced
 * for a SQL string, looking for a top-level keyword token whose upper-cased
 * text is one of the unsafe verbs.
 *
 * sqlparse itself is not modelled: its output (a sequence of statements, each
 * a sequence of top-level tokens) is the input here. A token type is a path
 * in sqlparse's type hierarchy, so `Keyword.DML` is ["Keyword", "DML"]; the
 * root type `Token` is the empty path, which Python treats as false, and a
 * grouped token (an identifier list, a WHERE clause, ...) has no type at all.
 */
module SqlInjection {
  import opened Wrappers
  import opened PyStr

  type TokenType = seq<string>

  const KEYWORD: TokenType := ["Keyword"]
  const KEYWORD_DML: TokenType := ["Keyword", "DML"]
  const KEYWORD_DDL: TokenType := ["Keyword", "DDL"]

  /** Token types this model uses for the hand-built token streams below. */
  const WHITESPACE: TokenType := ["Text", "Whitespace"]
  const PUNCTUATION: TokenType := ["Punctuation"]
  const WILDCARD: TokenType := ["Wildcard"]
  const STRING_SINGLE: TokenType := ["Literal", "String", "Single"]

  /** A top-level token of a statement: `token.ttype` and `token.value`. */
  datatype Token = Token(ttype: Option<TokenType>, value: string)

  /** `statement.tokens` */
  type Statement = seq<Token>

  const UNSAFE_KEYWORDS: seq<string> := ["DELETE", "DROP", "UPDATE"]

  /** `token.ttype and token.ttype in (Keyword, Keyword.DML, Keyword.DDL)`:
      an exact match, so no other sub-type of Keyword qualifies. */
  predicate IsKeywordType(ttype: Option<TokenType>) {
    ttype.Some? && ttype.value != [] && ttype.value in [KEYWORD, KEYWORD_DML, KEYWORD_DDL]
  }

  /** The condition under which the scan stops with `True`. */
  predicate IsUnsafeToken(t: Token) {
    IsKeywordType(t.ttype) && Upper(t.value) in UNSAFE_KEYWORDS
  }

  predicate StatementUnsafe(s: Statement) {
    exists j :: 0 <= j < |s| && IsUnsafeToken(s[j])
  }

  /** What `check_sql_injection` answers: some token of some statement is unsafe. */
  predicate ContainsUnsafe(parsed: seq<Statement>) {
    exists i :: 0 <= i < |parsed| && StatementUnsafe(parsed[i])
  }

  /** `check_sql_injection(sql)`, given `parsed == sqlparse.parse(sql)`:
      the nested scan with an early return. */
  method CheckSqlInjection(parsed: seq<Statement>) returns (unsafe: bool)
    ensures unsafe <==> ContainsUnsafe(parsed)
  {
    for i := 0 to |parsed|
      invariant forall i' :: 0 <= i' < i ==> !StatementUnsafe(parsed[i'])
    {
      var statement := parsed[i];
      for j := 0 to |statement|
        invariant forall j' :: 0 <= j' < j ==> !IsUnsafeToken(statement[j'])
      {
        var token := statement[j];
        if IsUnsafeToken(token) {
          return true;
        }
      }
    }
    return false;
  }

  // ---------------------------------------------------------------------
  // Properties of the scan

  /** The text test is DELETE, DROP or UPDATE in any mix of letter case. */
  lemma UnsafeTextAnyCase(v: string)
    ensures Upper(v) in UNSAFE_KEYWORDS <==>
      CaseVariant(v, "DELETE") || CaseVariant(v, "DROP") || CaseVariant(v, "UPDATE")
  {
    UpperIsCaseVariant(v, "DELETE");
    UpperIsCaseVariant(v, "DROP");
    UpperIsCaseVariant(v, "UPDATE");
  }

  /** The type test is an exact match: a token of any other sub-type of
      Keyword (Keyword.CTE, Keyword.Order, a child of Keyword.DML, ...) never
      flags, whatever its text. */
  lemma KeywordSubtypesNeverFlag(t: Token, path: seq<string>)
    requires t.ttype == Some(KEYWORD + path) && path !in [[], ["DML"], ["DDL"]]
    ensures !IsUnsafeToken(t)
  {
    var tt := KEYWORD + path;
    assert |path| == 1 ==> path == [path[0]] && tt[1] == path[0];
    assert tt != KEYWORD && tt != KEYWORD_DML && tt != KEYWORD_DDL;
  }

  lemma SameVerdict(t: Token, u: Token)
    requires t.ttype == u.ttype
    requires IsKeywordType(t.ttype) ==> Upper(t.value) == Upper(u.value)
    ensures IsUnsafeToken(t) <==> IsUnsafeToken(u)
  {
  }

  /** Two parses with the same statements, the same token types, and the
      same token text wherever the type is a keyword type. */
  predicate SameKeywords(p: seq<Statement>, q: seq<Statement>) {
    && |p| == |q|
    && (forall i :: 0 <= i < |p| ==> |p[i]| == |q[i]|)
    && (forall i, j :: 0 <= i < |p| && 0 <= j < |p[i]| ==>
          && p[i][j].ttype == q[i][j].ttype
          && (IsKeywordType(p[i][j].ttype) ==> p[i][j].value == q[i][j].value))
  }

  /** Text of tokens that are not of a keyword type (string literals, names,
      grouped tokens, comments) never affects the answer: "delete" inside a
      literal is ignored. */
  lemma OnlyKeywordTextMatters(p: seq<Statement>, q: seq<Statement>)
    requires SameKeywords(p, q)
    ensures ContainsUnsafe(p) <==> ContainsUnsafe(q)
  {
  }

  /** No token of a keyword type: never flagged, whatever the text. This
      covers empty input (no statements) and whitespace-only input. */
  lemma NoKeywordNoFlag(p: seq<Statement>)
    requires forall i, j :: 0 <= i < |p| && 0 <= j < |p[i]| ==> !IsKeywordType(p[i][j].ttype)
    ensures !ContainsUnsafe(p)
  {
  }

  /** Changing the letter case of any token's text never changes the answer. */
  lemma {:induction false} CaseInsensitive(p: seq<Statement>, q: seq<Statement>)
    requires |p| == |q|
    requires forall i :: 0 <= i < |p| ==> |p[i]| == |q[i]|
    requires forall i, j :: 0 <= i < |p| && 0 <= j < |p[i]| ==>
      p[i][j].ttype == q[i][j].ttype && CaseVariant(p[i][j].value, q[i][j].value)
    ensures ContainsUnsafe(p) <==> ContainsUnsafe(q)
  {
    if ContainsUnsafe(p) {
      var i, j :| 0 <= i < |p| && 0 <= j < |p[i]| && IsUnsafeToken(p[i][j]);
      assert p[i][j].ttype == q[i][j].ttype && CaseVariant(p[i][j].value, q[i][j].value);
      UpperOfCaseVariant(p[i][j].value, q[i][j].value);
      SameVerdict(p[i][j], q[i][j]);
      assert IsUnsafeToken(q[i][j]);
      assert StatementUnsafe(q[i]);
    }
    if ContainsUnsafe(q) {
      var i, j :| 0 <= i < |q| && 0 <= j < |q[i]| && IsUnsafeToken(q[i][j]);
      assert p[i][j].ttype == q[i][j].ttype && CaseVariant(p[i][j].value, q[i][j].value);
      UpperOfCaseVariant(p[i][j].value, q[i][j].value);
      SameVerdict(p[i][j], q[i][j]);
      assert IsUnsafeToken(p[i][j]);
      assert StatementUnsafe(p[i]);
    }
  }

  /** A compound input is flagged exactly when one of its parts is. */
  lemma {:induction false} CompoundIsOr(a: seq<Statement>, b: seq<Statement>)
    ensures ContainsUnsafe(a + b) <==> ContainsUnsafe(a) || ContainsUnsafe(b)
  {
    if ContainsUnsafe(a + b) {
      var i :| 0 <= i < |a + b| && StatementUnsafe((a + b)[i]);
      if i < |a| {
        assert StatementUnsafe(a[i]);
      } else {
        assert StatementUnsafe(b[i - |a|]);
      }
    }
    if ContainsUnsafe(a) {
      var i :| 0 <= i < |a| && StatementUnsafe(a[i]);
      assert StatementUnsafe((a + b)[i]);
    }
    if ContainsUnsafe(b) {
      var i :| 0 <= i < |b| && StatementUnsafe(b[i]);
      assert StatementUnsafe((a + b)[|a| + i]);
    }
  }

  /** A flagged statement flags the whole input wherever it stands. */
  lemma {:induction false} FlaggedAnywhere(before: seq<Statement>, s: Statement, after: seq<Statement>)
    requires StatementUnsafe(s)
    ensures ContainsUnsafe(before + [s] + after)
  {
    assert (before + [s] + after)[|before|] == s;
  }
}
