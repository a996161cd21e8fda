/** Free-text search: the escaped ILIKE pattern matches its input literally. */
module Search {

  /** Python's `s.replace(c, with)` for a one-character needle. */
  function Replace(s: string, c: char, with: string): string {
    if s == [] then [] else (if s[0] == c then with else [s[0]]) + Replace(s[1..], c, with)
  }

  /** The escaping as written: backslash first, then the two wildcards. */
  function ThreePasses(q: string): string {
    Replace(Replace(Replace(q, '\\', "\\\\"), '%', "\\%"), '_', "\\_")
  }

  /** ilike_pattern. */
  function IlikePattern(q: string): string {
    "%" + ThreePasses(q) + "%"
  }

  predicate Special(c: char) {
    c == '\\' || c == '%' || c == '_'
  }

  /** The reference: one pass, each special character preceded by a backslash. */
  function Escape(q: string): string {
    if q == [] then [] else (if Special(q[0]) then ['\\', q[0]] else [q[0]]) + Escape(q[1..])
  }

  /** SQL LIKE with backslash escape; `same` compares a literal with a character of the text. */
  predicate Like(pattern: string, text: string, same: (char, char) -> bool)
    decreases |pattern| + |text|
  {
    if pattern == [] then text == []
    else if pattern[0] == '%' then
      Like(pattern[1..], text, same) || (text != [] && Like(pattern, text[1..], same))
    else if text == [] then false
    else if pattern[0] == '_' then Like(pattern[1..], text[1..], same)
    else if pattern[0] == '\\' then
      |pattern| >= 2 && same(pattern[1], text[0]) && Like(pattern[2..], text[1..], same)
    else same(pattern[0], text[0]) && Like(pattern[1..], text[1..], same)
  }

  /** `q` stands at the start of the text, character by character. */
  predicate StartsWith(text: string, q: string, same: (char, char) -> bool) {
    |q| <= |text| && forall i :: 0 <= i < |q| ==> same(q[i], text[i])
  }

  ghost predicate Contains(text: string, q: string, same: (char, char) -> bool) {
    exists at :: 0 <= at <= |text| && StartsWith(text[at..], q, same)
  }

  lemma {:induction false} ReplaceAppend(s: string, t: string, c: char, with: string)
    ensures Replace(s + t, c, with) == Replace(s, c, with) + Replace(t, c, with)
  {
    if s == [] {
      assert s + t == t;
    } else {
      assert (s + t)[1..] == s[1..] + t;
      ReplaceAppend(s[1..], t, c, with);
    }
  }

  lemma {:induction false} ReplaceOne(ch: char, c: char, with: string)
    ensures Replace([ch], c, with) == if ch == c then with else [ch]
  {
    assert [ch][1..] == [] && Replace([], c, with) == [];
  }

  lemma {:induction false} ReplaceTwo(a: char, b: char, c: char, with: string)
    ensures Replace([a, b], c, with) == (if a == c then with else [a]) + (if b == c then with else [b])
  {
    ReplaceAppend([a], [b], c, with);
    ReplaceOne(a, c, with);
    ReplaceOne(b, c, with);
    assert [a] + [b] == [a, b];
  }

  lemma {:induction false} ThreePassesOne(ch: char)
    ensures ThreePasses([ch]) == if Special(ch) then ['\\', ch] else [ch]
  {
    ReplaceOne(ch, '\\', "\\\\");
    ReplaceOne(ch, '%', "\\%");
    ReplaceOne(ch, '_', "\\_");
    ReplaceTwo('\\', '\\', '%', "\\%");
    ReplaceTwo('\\', '\\', '_', "\\_");
    ReplaceTwo('\\', '%', '_', "\\_");
  }

  /** The three successive replaces are one pass: the order keeps escapes from being escaped. */
  lemma {:induction false} EscapeIsOnePass(q: string)
    ensures ThreePasses(q) == Escape(q)
    ensures IlikePattern(q) == "%" + Escape(q) + "%"
  {
    if q != [] {
      assert q == [q[0]] + q[1..];
      EscapeIsOnePass(q[1..]);
      ReplaceAppend([q[0]], q[1..], '\\', "\\\\");
      ReplaceAppend(Replace([q[0]], '\\', "\\\\"), Replace(q[1..], '\\', "\\\\"), '%', "\\%");
      ReplaceAppend(Replace(Replace([q[0]], '\\', "\\\\"), '%', "\\%"),
                    Replace(Replace(q[1..], '\\', "\\\\"), '%', "\\%"), '_', "\\_");
      ThreePassesOne(q[0]);
    }
  }

  lemma {:induction false} TrailingWildcard(text: string, same: (char, char) -> bool)
    ensures Like("%", text, same)
  {
    if text == [] {
      assert Like("%"[1..], text, same);
    } else {
      TrailingWildcard(text[1..], same);
    }
  }

  /** An escaped literal followed by a wildcard matches exactly the texts that start with it. */
  lemma {:induction false} EscapedPrefix(q: string, text: string, same: (char, char) -> bool)
    ensures Like(Escape(q) + "%", text, same) <==> StartsWith(text, q, same)
  {
    var pattern := Escape(q) + "%";
    if q == [] {
      assert pattern == "%";
      TrailingWildcard(text, same);
    } else if text != [] {
      EscapedPrefix(q[1..], text[1..], same);
      var rest := Escape(q[1..]) + "%";
      if Special(q[0]) {
        assert pattern == ['\\', q[0]] + rest;
        assert pattern[2..] == rest;
      } else {
        assert pattern == [q[0]] + rest;
        assert pattern[1..] == rest;
      }
      assert StartsWith(text, q, same) <==> same(q[0], text[0]) && StartsWith(text[1..], q[1..], same) by {
        if same(q[0], text[0]) && StartsWith(text[1..], q[1..], same) {
          assert forall i :: 0 < i < |q| ==> q[i] == q[1..][i - 1] && text[i] == text[1..][i - 1];
        }
        if StartsWith(text, q, same) {
          assert forall i :: 0 <= i < |q| - 1 ==> q[1..][i] == q[i + 1] && text[1..][i] == text[i + 1];
        }
      }
    }
  }

  /**
    The search pattern is literal: whatever the query contains, a text matches exactly when the
    query is a substring of it, for any comparison of characters (such as case folding).
   */
  lemma {:induction false} PatternIsLiteral(q: string, text: string, same: (char, char) -> bool)
    ensures Like(IlikePattern(q), text, same) <==> Contains(text, q, same)
    decreases |text|
  {
    EscapeIsOnePass(q);
    var body := Escape(q) + "%";
    assert IlikePattern(q) == ['%'] + body;
    assert IlikePattern(q)[1..] == body;
    EscapedPrefix(q, text, same);
    assert text[0..] == text;
    if text != [] {
      PatternIsLiteral(q, text[1..], same);
      if Contains(text[1..], q, same) {
        var at :| 0 <= at <= |text[1..]| && StartsWith(text[1..][at..], q, same);
        assert text[1..][at..] == text[at + 1..];
        assert StartsWith(text[at + 1..], q, same);
      }
      if Contains(text, q, same) && !StartsWith(text, q, same) {
        var at :| 0 <= at <= |text| && StartsWith(text[at..], q, same);
        assert text[1..][at - 1..] == text[at..];
      }
    }
  }
}
