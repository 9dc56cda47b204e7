/**
 * Texts worked through the template lexer (compiler/src/template/lexer.rs),
 * token by token: anchors, and what a `]` not followed by `(` does to the
 * byte offsets the lexer slices at.
 */
module TemplateLexerExamples {
  import opened Common
  import opened TemplateLexer
  import ExpressionLexer

  /** Where the texts after the stray `]` above are sliced. */
  lemma StraySuffixes()
    ensures Suffix("]ab*", 2) == Ok("b*")
    ensures Suffix("]\U{E9}ab*", 3) == Ok("ab*")
  {
    assert CharIndex("]ab*", 0, 2) == Ok(2) by {
      assert CharIndex("]ab*", 1, 1) == Ok(2);
    }
    assert "]ab*"[2..] == "b*";
    var s := "]\U{E9}ab*";
    assert CharIndex(s, 0, 3) == Ok(2) by {
      assert Utf8Len(s[1]) == 2;
      assert CharIndex(s, 1, 2) == Ok(2);
    }
    assert s[2..] == "ab*";
  }

  /**
   * A `]` that is not followed by `(` takes the char after it along
   * without counting it: in `]ab*` the `a` is lost, and the text `b` is
   * yielded with the source left at `b*`, so the next call yields `b`
   * again.
   */
  lemma StrayBracket()
    ensures NextSpec(false, Start("]ab*")) == Ok(Lexed(Some(Text("b")), Cursor("b*", Mark(0, 2), InText, [])))
    ensures NextSpec(false, Cursor("b*", Mark(0, 2), InText, [])) == Ok(Lexed(Some(Text("b")), Cursor("*", Mark(0, 3), InText, [])))
  {
    StrayBracketSkips();
    StrayBracketAgain();
  }

  lemma StrayBracketSkips()
    ensures NextSpec(false, Start("]ab*")) == Ok(Lexed(Some(Text("b")), Cursor("b*", Mark(0, 2), InText, [])))
  {
    var s := "]ab*";
    StraySuffixes();
    assert [] + s[2..3] == "b";
    var moved := Start(s).(mark := ExpressionLexer.Step(Start(s).mark, ']'));
    assert moved == Cursor(s, Mark(0, 1), Initial, []);
    ScanWord(moved, 2, 3, 1, "b", "b*", Mark(0, 2));
    ScanStrayBracket(Start(s));
    assert NextSpec(false, Start(s)) == Scan(false, moved, 2, 1);
  }

  lemma StrayBracketAgain()
    ensures NextSpec(false, Cursor("b*", Mark(0, 2), InText, [])) == Ok(Lexed(Some(Text("b")), Cursor("*", Mark(0, 3), InText, [])))
  {
    var s := "b*";
    assert CharIndex(s, 0, 1) == Ok(1);
    assert [] + s[0..1] == "b";
    ScanWord(Cursor(s, Mark(0, 2), InText, []), 0, 1, 0, "b", "*", Mark(0, 3));
  }


  /** `[` opens an anchor without moving the mark. */
  lemma AnchorOpens()
    ensures NextSpec(false, Start("[x](y)")) == Ok(Lexed(Some(AnchorBegin), Cursor("x](y)", Mark(0, 0), Initial, [])))
  {
    assert CharIndex("[x](y)", 0, 1) == Ok(1);
    assert BracketToken(false, Start("[x](y)"), 0, 0) == Ok(Lexed(Some(AnchorBegin), Cursor("x](y)", Mark(0, 0), Initial, [])));
  }

  lemma TrimWord()
    ensures Trim("y") == "y"
  {
    assert TrimStart("y") == "y" && TrimEnd("y") == "y";
  }

  /** The target `y)` closes at the `)`. */
  lemma AnchorTarget()
    ensures HrefScan("](y)", 2, 2, Mark(0, 3), false) == Closed(3, Mark(0, 4))
  {
    assert Utf8Len('y') == 1;
  }

  lemma AnchorHref()
    ensures HrefToken(false, Cursor("](y)", Mark(0, 1), InText, []), 0, 0) == Ok(Lexed(Some(AnchorEnd("y")), Cursor([], Mark(0, 5), InText, [])))
  {
    AnchorTarget();
    TrimWord();
    HrefSlices();
    assert ExpressionLexer.Step(ExpressionLexer.Step(Mark(0, 1), ']'), '(') == Mark(0, 3);
    assert ExpressionLexer.Step(Mark(0, 4), ')') == Mark(0, 5);
  }

  /** The byte slices of `](y)` the anchor target is cut from. */
  lemma HrefSlices()
    ensures Slice("](y)", 2, 3) == Ok("y") && Suffix("](y)", 4) == Ok([])
  {
    assert CharIndex("](y)", 0, 2) == Ok(2) by {
      assert CharIndex("](y)", 1, 1) == Ok(2);
    }
    assert CharIndex("](y)", 0, 3) == Ok(3) by {
      assert CharIndex("](y)", 2, 1) == Ok(3);
      assert CharIndex("](y)", 1, 2) == Ok(3);
    }
    assert CharIndex("](y)", 0, 4) == Ok(4) by {
      assert CharIndex("](y)", 3, 1) == Ok(4);
      assert CharIndex("](y)", 2, 2) == Ok(4);
      assert CharIndex("](y)", 1, 3) == Ok(4);
    }
    assert "](y)"[2..3] == "y";
  }

  /** `](y)` closes an anchor with the target `y`, past the `)`. */
  lemma AnchorCloses()
    ensures NextSpec(false, Cursor("](y)", Mark(0, 1), InText, [])) == Ok(Lexed(Some(AnchorEnd("y")), Cursor([], Mark(0, 5), InText, [])))
  {
    AnchorHref();
    ScanSpecial(false, Cursor("](y)", Mark(0, 1), InText, []), 0, 0);
  }

  /** A letter read in text: one more pending char, one more byte, one more column. */
  lemma ScanLetter(cur: Cursor, k: nat, offset: nat)
    requires k < |cur.source| && 'a' <= cur.source[k] <= 'z'
    requires cur.state == Initial || cur.state == InText
    ensures Scan(false, cur, k, offset)
         == Scan(false, cur.(mark := Mark(cur.mark.line, cur.mark.column + 1), pending := cur.pending + [cur.source[k]], state := InText), k + 1, offset + 1)
  {
    ScanPlain(false, cur, k, offset);
  }

  /** Text is cut off before a special char, at the byte offset reached. */
  lemma ScanTextEnds(cur: Cursor, k: nat, offset: nat, rest: string)
    requires k < |cur.source| && Special(false, cur.source[k]) && (cur.state == Initial || cur.state == InText) && cur.pending != []
    requires Suffix(cur.source, offset) == Ok(rest)
    ensures Scan(false, cur, k, offset) == Ok(Lexed(Some(Text(cur.pending)), cur.(pending := [], source := rest)))
  {
  }

  /**
   * Letters read in text up to a special char: they join the pending
   * text, which is yielded with the source sliced at the byte reached.
   */
  lemma {:induction false} ScanWord(cur: Cursor, k: nat, j: nat, offset: nat, text: string, rest: string, mark: Mark)
    requires k <= j < |cur.source| && Special(false, cur.source[j])
    requires forall i :: k <= i < j ==> 'a' <= cur.source[i] <= 'z'
    requires cur.state == InText || (cur.state == Initial && k < j)
    requires text == cur.pending + cur.source[k..j] && text != []
    requires Suffix(cur.source, offset + (j - k)) == Ok(rest)
    requires mark == Mark(cur.mark.line, cur.mark.column + (j - k))
    ensures Scan(false, cur, k, offset) == Ok(Lexed(Some(Text(text)), Cursor(rest, mark, InText, [])))
    decreases j - k
  {
    if k == j {
      assert cur.source[k..j] == [];
      assert cur.pending + [] == cur.pending;
      assert cur.(pending := [], source := rest) == Cursor(rest, mark, InText, []);
      ScanTextEnds(cur, k, offset, rest);
    } else {
      var next := cur.(mark := Mark(cur.mark.line, cur.mark.column + 1), pending := cur.pending + [cur.source[k]], state := InText);
      ScanLetter(cur, k, offset);
      WordGrows(cur.pending, cur.source, k, j, text);
      ScanWord(next, k + 1, j, offset + 1, text, rest, mark);
    }
  }

  /** Moving one char from the source to the pending text keeps the text. */
  lemma WordGrows(pending: string, s: string, k: nat, j: nat, text: string)
    requires k < j <= |s| && text == pending + s[k..j]
    ensures text == (pending + [s[k]]) + s[k + 1..j]
  {
    assert s[k..j] == [s[k]] + s[k + 1..j];
  }


  /** A `]` at the start of the text and not followed by `(` is skipped with the char after it. */
  lemma ScanStrayBracket(cur: Cursor)
    requires 1 < |cur.source| && cur.source[0] == ']' && cur.source[1] != '('
    requires cur.state == Initial && cur.pending == []
    ensures Scan(false, cur, 0, 0) == Scan(false, cur.(mark := ExpressionLexer.Step(cur.mark, ']')), 2, 1)
  {
    ScanSpecial(false, cur, 0, 0);
  }

  /**
   * After a stray `]` the skipped char is a two-byte `é`, of which one
   * byte is counted: the text `ab` is sliced one byte early, so the source
   * is left at `ab*` and the next call yields `ab` once more.
   */
  lemma StrayBracketMultibyte()
    ensures NextSpec(false, Start("]\U{E9}ab*")) == Ok(Lexed(Some(Text("ab")), Cursor("ab*", Mark(0, 3), InText, [])))
    ensures NextSpec(false, Cursor("ab*", Mark(0, 3), InText, [])) == Ok(Lexed(Some(Text("ab")), Cursor("*", Mark(0, 5), InText, [])))
  {
    StrayBracketMultibyteFirst();
    StrayBracketMultibyteAgain();
  }

  lemma StrayBracketMultibyteAgain()
    ensures NextSpec(false, Cursor("ab*", Mark(0, 3), InText, [])) == Ok(Lexed(Some(Text("ab")), Cursor("*", Mark(0, 5), InText, [])))
  {
    var s := "ab*";
    assert CharIndex(s, 0, 2) == Ok(2) by {
      assert CharIndex(s, 1, 1) == Ok(2);
    }
    assert [] + s[0..2] == "ab";
    ScanWord(Cursor(s, Mark(0, 3), InText, []), 0, 2, 0, "ab", "*", Mark(0, 5));
  }


  lemma StrayBracketMultibyteFirst()
    ensures NextSpec(false, Start("]\U{E9}ab*")) == Ok(Lexed(Some(Text("ab")), Cursor("ab*", Mark(0, 3), InText, [])))
  {
    var s := "]\U{E9}ab*";
    StraySuffixes();
    assert [] + s[2..4] == "ab";
    var moved := Start(s).(mark := ExpressionLexer.Step(Start(s).mark, ']'));
    assert moved == Cursor(s, Mark(0, 1), Initial, []);
    ScanWord(moved, 2, 4, 1, "ab", "ab*", Mark(0, 3));
    ScanStrayBracket(Start(s));
    assert NextSpec(false, Start(s)) == Scan(false, moved, 2, 1);
  }


  /**
   * After a stray `]` that skips `é`, the text `€` ends one byte into the
   * three bytes of the `€`: slicing there panics.
   */
  lemma StrayBracketPanics()
    ensures NextSpec(false, Start("]\U{E9}\U{20AC}*")).Panic?
  {
    var s := "]\U{E9}\U{20AC}*";
    var cur := Start(s);
    var moved := cur.(mark := Mark(0, 1));
    var euro := moved.(mark := Mark(0, 4), pending := "\U{20AC}", state := InText);
    assert CharIndex(s, 0, 4).Panic? by {
      assert Utf8Len(s[1]) == 2 && Utf8Len(s[2]) == 3;
      assert CharIndex(s, 2, 1).Panic?;
      assert CharIndex(s, 1, 3).Panic?;
    }
    assert Scan(false, euro, 3, 4).Panic?;
    ScanPlain(false, moved, 2, 1);
    assert [] + [s[2]] == "\U{20AC}" && !IsAsciiPunctuation(s[2]) && !IsWhitespace(s[2]);
    assert Scan(false, moved, 2, 1) == Scan(false, euro, 3, 4);
    assert BracketToken(false, cur, 0, 0) == Scan(false, moved, 2, 1);
    ScanSpecial(false, cur, 0, 0);
  }
}
