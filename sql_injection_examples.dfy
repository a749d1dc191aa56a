/**
 * The cases of test.py, restated over hand-built token streams. Each stream
 * is the labelling sqlparse is assumed to give the test's SQL text: top-level
 * keywords carry a Keyword type, while a table name becomes a grouped
 * identifier and a WHERE clause a grouped clause, both without a type.
 */
module SqlInjectionExamples {
  import opened Wrappers
  import opened PyStr
  import opened SqlInjection

  function Ws(): Token { Token(Some(WHITESPACE), " ") }
  function Kw(t: TokenType, v: string): Token { Token(Some(t), v) }
  function Group(v: string): Token { Token(None, v) }

  /** "dElEtE FROM users": mixed case still flags. */
  lemma MixedCaseDeleteFlagged()
    ensures ContainsUnsafe([[Kw(KEYWORD_DML, "dElEtE"), Ws(), Kw(KEYWORD, "FROM"), Ws(), Group("users")]])
  {
    var s := [Kw(KEYWORD_DML, "dElEtE"), Ws(), Kw(KEYWORD, "FROM"), Ws(), Group("users")];
    assert Upper("dElEtE") == "DELETE";
    assert IsUnsafeToken(s[0]);
    assert StatementUnsafe([s][0]);
  }

  /** "SELECT * FROM passwords;DROP TABLE users;": the second statement flags. */
  lemma LaterStatementFlagged()
    ensures ContainsUnsafe([
      [Kw(KEYWORD_DML, "SELECT"), Ws(), Token(Some(WILDCARD), "*"), Ws(), Kw(KEYWORD, "FROM"), Ws(),
       Group("passwords"), Token(Some(PUNCTUATION), ";")],
      [Kw(KEYWORD_DDL, "DROP"), Ws(), Kw(KEYWORD, "TABLE"), Ws(), Group("users"), Token(Some(PUNCTUATION), ";")]])
  {
    var second := [Kw(KEYWORD_DDL, "DROP"), Ws(), Kw(KEYWORD, "TABLE"), Ws(), Group("users"), Token(Some(PUNCTUATION), ";")];
    assert Upper("DROP") == "DROP";
    assert IsUnsafeToken(second[0]);
    var first := [Kw(KEYWORD_DML, "SELECT"), Ws(), Token(Some(WILDCARD), "*"), Ws(), Kw(KEYWORD, "FROM"), Ws(),
       Group("passwords"), Token(Some(PUNCTUATION), ";")];
    assert StatementUnsafe([first, second][1]);
  }

  /** "SELECT * FROM users WHERE name = 'delete'": the literal sits inside the
      grouped WHERE clause, which has no token type. */
  lemma LiteralInWhereNotFlagged()
    ensures !ContainsUnsafe([[Kw(KEYWORD_DML, "SELECT"), Ws(), Token(Some(WILDCARD), "*"), Ws(),
      Kw(KEYWORD, "FROM"), Ws(), Group("users"), Ws(), Group("WHERE name = 'delete'")]])
  {
    var s := [Kw(KEYWORD_DML, "SELECT"), Ws(), Token(Some(WILDCARD), "*"), Ws(),
      Kw(KEYWORD, "FROM"), Ws(), Group("users"), Ws(), Group("WHERE name = 'delete'")];
    assert Upper("SELECT") == "SELECT";
    assert Upper("FROM") == "FROM";
    forall j | 0 <= j < |s| ensures !IsUnsafeToken(s[j]) {
    }
  }

  /** "SELECT 'This contains DELETE keyword' FROM table": a string literal
      is never a keyword, even when it stands alone as a top-level token, and
      the keyword TABLE is not an unsafe verb. */
  lemma StringLiteralNotFlagged()
    ensures !ContainsUnsafe([[Kw(KEYWORD_DML, "SELECT"), Ws(), Token(Some(STRING_SINGLE), "'This contains DELETE keyword'"),
      Ws(), Kw(KEYWORD, "FROM"), Ws(), Kw(KEYWORD, "table")]])
  {
    var s := [Kw(KEYWORD_DML, "SELECT"), Ws(), Token(Some(STRING_SINGLE), "'This contains DELETE keyword'"),
      Ws(), Kw(KEYWORD, "FROM"), Ws(), Kw(KEYWORD, "table")];
    assert Upper("SELECT") == "SELECT";
    assert Upper("FROM") == "FROM";
    assert Upper("table") == "TABLE";
    forall j | 0 <= j < |s| ensures !IsUnsafeToken(s[j]) {
    }
  }

  /** "" parses to no statement and "   " to one whitespace token: neither flags. */
  lemma BlankInputNotFlagged()
    ensures !ContainsUnsafe([])
    ensures !ContainsUnsafe([[Token(Some(WHITESPACE), "   ")]])
  {
  }
}
