/**
 The filter expression that finds pull requests by title or source branch. The searched
 text is quoted, so quotes and backslashes in it have to be escaped.
 */
module SearchQuery {
  import opened Text

  const QUOTE: char := '"'
  const BACKSLASH: char := '\\'

  /** Replaces every occurrence of one character, as the standard library's `replace`. */
  function ReplaceChar(s: string, c: char, replacement: string): string {
    if s == "" then "" else (if s[0] == c then replacement else [s[0]]) + ReplaceChar(s[1..], c, replacement)
  }

  /** Two passes: backslashes first, then quotes. */
  function EscapedText(value: string): string {
    ReplaceChar(ReplaceChar(Trim(value), BACKSLASH, [BACKSLASH, BACKSLASH]), QUOTE, [BACKSLASH, QUOTE])
  }

  const TITLE_CLAUSE := "(title ~ \""
  const BRANCH_CLAUSE := " OR source.branch.name ~ \""

  /** The text twice: once for the title, once for the source branch. */
  function Query(value: string): string {
    TITLE_CLAUSE + (EscapedText(value) + [QUOTE] + Remainder(value))
  }

  function Remainder(value: string): string {
    BRANCH_CLAUSE + (EscapedText(value) + [QUOTE] + ")")
  }

  // ----- One pass, and the reader's side -----

  function EscapeChar(c: char): string {
    if c == BACKSLASH || c == QUOTE then [BACKSLASH, c] else [c]
  }

  function Escape(s: string): string {
    if s == "" then "" else EscapeChar(s[0]) + Escape(s[1..])
  }

  /**
   A reader of quoted literals: takes the text up to the first quote that no backslash
   precedes, undoing the escapes. The second part is what follows that quote; without
   such a quote there is no literal, and nothing is read.
   */
  datatype Literal = Literal(text: string, rest: string) | Unterminated

  function ReadLiteral(s: string): Literal {
    if s == "" then Unterminated
    else if s[0] == QUOTE then Literal("", s[1..])
    else if s[0] == BACKSLASH && |s| == 1 then Unterminated
    else
      var (c, tail) := if s[0] == BACKSLASH then (s[1], s[2..]) else (s[0], s[1..]);
      match ReadLiteral(tail)
      case Literal(text, rest) => Literal([c] + text, rest)
      case Unterminated => Unterminated
  }

  // ----- The properties -----

  lemma {:induction false} ReplaceOfConcat(a: string, b: string, c: char, replacement: string)
    ensures ReplaceChar(a + b, c, replacement) == ReplaceChar(a, c, replacement) + ReplaceChar(b, c, replacement)
  {
    if a == "" {
      assert a + b == b;
    } else {
      assert (a + b)[1..] == a[1..] + b;
      ReplaceOfConcat(a[1..], b, c, replacement);
    }
  }

  /** The two passes do what one pass character by character would do. */
  lemma {:induction false} TwoPassesAreOne(s: string)
    ensures ReplaceChar(ReplaceChar(s, BACKSLASH, [BACKSLASH, BACKSLASH]), QUOTE, [BACKSLASH, QUOTE]) == Escape(s)
  {
    if s != "" {
      var first := if s[0] == BACKSLASH then [BACKSLASH, BACKSLASH] else [s[0]];
      var rest := ReplaceChar(s[1..], BACKSLASH, [BACKSLASH, BACKSLASH]);
      ReplaceOfConcat(first, rest, QUOTE, [BACKSLASH, QUOTE]);
      assert ReplaceChar(first, QUOTE, [BACKSLASH, QUOTE]) == EscapeChar(s[0]) by {
        assert first[1..] == if s[0] == BACKSLASH then [BACKSLASH] else "";
        if s[0] == BACKSLASH { assert first[1..][1..] == ""; }
      }
      TwoPassesAreOne(s[1..]);
    }
  }

  /** One escaped character is read as that character, whatever follows. */
  lemma ReadsOne(c: char, tail: string)
    requires ReadLiteral(tail).Literal?
    ensures ReadLiteral(EscapeChar(c) + tail) == Literal([c] + ReadLiteral(tail).text, ReadLiteral(tail).rest)
  {
    var s := EscapeChar(c) + tail;
    if c == BACKSLASH || c == QUOTE {
      assert s[0] == BACKSLASH && s[1] == c;
      assert s[2..] == tail;
    } else {
      assert s[0] == c;
      assert s[1..] == tail;
    }
  }

  /** Reading the escaped text and a closing quote gives the text, and stops at that quote. */
  lemma {:induction false} ReadsBack(s: string, after: string)
    ensures ReadLiteral(Escape(s) + [QUOTE] + after) == Literal(s, after)
  {
    if s == "" {
      assert Escape(s) + [QUOTE] + after == [QUOTE] + after;
      assert ([QUOTE] + after)[1..] == after;
    } else {
      var tail := Escape(s[1..]) + [QUOTE] + after;
      ReadsBack(s[1..], after);
      ReadsOne(s[0], tail);
      assert Escape(s) + [QUOTE] + after == EscapeChar(s[0]) + tail;
      assert [s[0]] + s[1..] == s;
    }
  }

  /**
   The query holds the trimmed text twice as a literal, and nothing in the text can end
   a literal early: a reader finds the text and then exactly the intended continuation.
   */
  lemma QueryQuotesTheText(value: string)
    ensures ReadLiteral(Query(value)[|TITLE_CLAUSE|..]) == Literal(Trim(value), Remainder(value))
    ensures ReadLiteral(Remainder(value)[|BRANCH_CLAUSE|..]) == Literal(Trim(value), ")")
  {
    TwoPassesAreOne(Trim(value));
    ReadsBack(Trim(value), Remainder(value));
    Skip(TITLE_CLAUSE, EscapedText(value) + [QUOTE] + Remainder(value));
    ReadsBack(Trim(value), ")");
    Skip(BRANCH_CLAUSE, EscapedText(value) + [QUOTE] + ")");
  }

  lemma Skip(a: string, b: string)
    ensures (a + b)[|a|..] == b
  {}

  /** Two searches send the same query exactly when they mean the same trimmed text. */
  lemma QueryIsInjective(a: string, b: string)
    ensures Query(a) == Query(b) <==> Trim(a) == Trim(b)
  {
    QueryQuotesTheText(a);
    QueryQuotesTheText(b);
  }

  lemma {:induction false} NothingToEscape(s: string)
    requires QUOTE !in s && BACKSLASH !in s
    ensures Escape(s) == s
  {
    if s != "" { NothingToEscape(s[1..]); }
  }

  lemma BetweenTexts()
    ensures [QUOTE] + BRANCH_CLAUSE == "\" OR source.branch.name ~ \""
    ensures [QUOTE] + ")" == "\")"
  {}

  lemma Regroup(title: string, text: string, quote: string, branch: string, end: string)
    ensures title + (text + quote + (branch + (text + quote + end)))
         == title + text + (quote + branch) + text + (quote + end)
  {}

  lemma QueryWithText(value: string, text: string)
    requires EscapedText(value) == text
    ensures Query(value) == TITLE_CLAUSE + text + ([QUOTE] + BRANCH_CLAUSE) + text + ([QUOTE] + ")")
  {
    Regroup(TITLE_CLAUSE, text, [QUOTE], BRANCH_CLAUSE, ")");
  }

  /** The query for a text without quotes and backslashes, in full. */
  lemma PlainQuery(value: string)
    requires '"' !in Trim(value) && '\\' !in Trim(value)
    ensures Query(value)
         == "(title ~ \"" + Trim(value) + "\" OR source.branch.name ~ \"" + Trim(value) + "\")"
  {
    TwoPassesAreOne(Trim(value));
    NothingToEscape(Trim(value));
    QueryWithText(value, Trim(value));
    BetweenTexts();
  }
}
