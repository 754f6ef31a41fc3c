/**
 * `escapeMdV2`: backslash-escaping of the characters Telegram's MarkdownV2
 * reserves, together with two ways of reading an escaped text back.
 */
module Markdown {
  import opened Wrappers

  /** The 18 characters the bot escapes, ``_*[]()~`>#+=-|{}.!``; the backslash itself is not among them. */
  predicate IsReserved(c: char)
  {
    c == '_' || c == '*' || c == '[' || c == ']' || c == '(' || c == ')' || c == '~' || c == '`' || c == '>'
    || c == '#' || c == '+' || c == '=' || c == '-' || c == '|' || c == '{' || c == '}' || c == '.' || c == '!'
  }

  function CountReserved(s: string): nat
  {
    if s == [] then 0 else (if IsReserved(s[0]) then 1 else 0) + CountReserved(s[1..])
  }

  /**
   * `escapeMdV2(s)`: one backslash before each reserved character. The result
   * grows by exactly the number of reserved characters, never starts with a
   * reserved character, and every reserved character in it follows a backslash.
   */
  function Escape(s: string): (r: string)
    ensures |r| == |s| + CountReserved(s)
    ensures CountReserved(s) == 0 ==> r == s
    ensures r != [] ==> !IsReserved(r[0])
    ensures forall k :: 0 <= k < |r| && IsReserved(r[k]) ==> k > 0 && r[k - 1] == '\\'
  {
    if s == [] then []
    else (if IsReserved(s[0]) then ['\\', s[0]] else [s[0]]) + Escape(s[1..])
  }

  /** Escaping adds nothing but backslashes. */
  lemma {:induction false} EscapeAddsOnlyBackslashes(s: string)
    ensures forall k :: 0 <= k < |Escape(s)| ==> Escape(s)[k] == '\\' || Escape(s)[k] in s
  {
    if s != [] {
      EscapeAddsOnlyBackslashes(s[1..]);
      var tail := Escape(s[1..]);
      forall k | 0 <= k < |tail| ensures tail[k] == '\\' || tail[k] in s {
        if tail[k] != '\\' {
          var j :| 0 <= j < |s[1..]| && s[1..][j] == tail[k];
          assert s[j + 1] == tail[k];
        }
      }
    }
  }

  /** Drops every backslash that directly precedes a reserved character. */
  function Unescape(r: string): string
  {
    if r == [] then []
    else if |r| >= 2 && r[0] == '\\' && IsReserved(r[1]) then [r[1]] + Unescape(r[2..])
    else [r[0]] + Unescape(r[1..])
  }

  /** Dropping the inserted backslashes gives back the input, whatever it holds. */
  lemma {:induction false} UnescapeEscape(s: string)
    ensures Unescape(Escape(s)) == s
  {
    if s != [] {
      var r := Escape(s);
      var tail := Escape(s[1..]);
      UnescapeEscape(s[1..]);
      if IsReserved(s[0]) {
        assert r == ['\\', s[0]] + tail;
        assert r[2..] == tail;
      } else {
        assert r == [s[0]] + tail;
        assert r[1..] == tail;
      }
    }
  }

  function Prepend(c: char, rest: Option<string>): Option<string>
  {
    if rest.Some? then Some([c] + rest.value) else None
  }

  /**
   * How Telegram reads MarkdownV2 text outside any entity: a backslash makes
   * the next character (codes 1 to 126) literal, and a reserved character
   * that is not escaped is rejected. A trailing backslash, or one before any
   * other character, is treated as an error here.
   */
  function ReadV2(r: string): Option<string>
  {
    if r == [] then Some([])
    else if r[0] == '\\' then
      if |r| >= 2 && 1 <= r[1] as int <= 126 then Prepend(r[1], ReadV2(r[2..])) else None
    else if IsReserved(r[0]) then None
    else Prepend(r[0], ReadV2(r[1..]))
  }

  /** Telegram reads an escaped backslash-free text as exactly that text. */
  lemma {:induction false} ReadEscape(s: string)
    requires '\\' !in s
    ensures ReadV2(Escape(s)) == Some(s)
  {
    if s != [] {
      var r := Escape(s);
      var tail := Escape(s[1..]);
      assert s[0] in s && [s[0]] + s[1..] == s;
      assert '\\' !in s[1..] by {
        forall k | 0 <= k < |s[1..]| ensures s[1..][k] != '\\' {
          assert s[1..][k] == s[k + 1];
        }
      }
      ReadEscape(s[1..]);
      if IsReserved(s[0]) {
        assert r == ['\\', s[0]] + tail;
        assert r[2..] == tail;
      } else {
        assert r == [s[0]] + tail;
        assert r[0] != '\\' && r[1..] == tail;
      }
    }
  }

  /**
   * The backslash is not escaped, so a text holding `\` before a reserved
   * character escapes to something Telegram rejects: `\.` becomes `\\.`,
   * read as a literal backslash followed by a bare `.`.
   */
  lemma BackslashDefeatsEscape()
    ensures Escape("\\.") == "\\\\."
    ensures ReadV2(Escape("\\.")) == None
  {
    assert Escape(".") == "\\.";
    assert Escape("\\.") == "\\" + Escape(".");
  }
}
