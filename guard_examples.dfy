/** The danger guard on concrete queries. Each query is a parameter equal to
    a literal, and is taken apart at its spaces with DangerousAtSpace.
    The literal is not passed to IsDangerous directly because the solver
    would then unfold the recursive Split and Trim over the whole literal
    at once, which does not finish within the resource limit; a parameter
    keeps the unfolding to the one piece each lemma is about. */
module GuardExamples {
  import opened DangerGuard

  /** A word without whitespace, whose lower-cased form is `lower`, passes
      the guard exactly when `lower` is not on the denylist. */
  lemma Word(w: string, lower: string)
    requires forall k :: 0 <= k < |w| ==> !IsWhitespace(w[k])
    requires ToAsciiLower(w) == lower
    ensures IsDangerous(w) <==> lower in DangerWords
  {
    SingleWordCheck(w);
  }

  /** An ordinary query passes. */
  lemma SelectPasses(q: string)
    requires q == "SELECT * FROM t"
    ensures !IsDangerous(q)
  {
    SelectWordPasses(q[..6]);
    StarFromTPasses(q[7..]);
    DangerousAtSpace(q, 6);
  }

  lemma SelectWordPasses(q: string)
    requires q == "SELECT"
    ensures !IsDangerous(q)
  {
    Word(q, "select");
  }

  lemma StarFromTPasses(q: string)
    requires q == "* FROM t"
    ensures !IsDangerous(q)
  {
    Word(q[..1], "*");
    FromTPasses(q[2..]);
    DangerousAtSpace(q, 1);
  }

  lemma FromTPasses(q: string)
    requires q == "FROM t"
    ensures !IsDangerous(q)
  {
    Word(q[..4], "from");
    Word(q[5..], "t");
    DangerousAtSpace(q, 4);
  }

  /** A denylisted word trips the guard whatever its letter case. */
  lemma UpperCaseDropIsDangerous(q: string)
    requires q == "DROP table t"
    ensures IsDangerous(q)
  {
    Word(q[..4], "drop");
    DangerousAtSpace(q, 4);
  }

  /** A delete statement trips the guard. */
  lemma DeleteIsDangerous(q: string)
    requires q == "DELETE FROM t"
    ensures IsDangerous(q)
  {
    Word(q[..6], "delete");
    DangerousAtSpace(q, 6);
  }

  /** The match is exact: attached punctuation lets the word through. */
  lemma PunctuatedDropPasses(q: string)
    requires q == "drop;"
    ensures !IsDangerous(q)
  {
    Word(q, "drop;");
  }

  /** The match is exact: a word that merely contains "drop" passes. */
  lemma AirdropPasses(q: string)
    requires q == "airdrop now"
    ensures !IsDangerous(q)
  {
    Word(q[..7], "airdrop");
    NowPasses(q[8..]);
    DangerousAtSpace(q, 7);
  }

  lemma NowPasses(q: string)
    requires q == "now"
    ensures !IsDangerous(q)
  {
    Word(q, "now");
  }

  /** Tabs and newlines around a piece are trimmed away, so they do not hide it. */
  lemma TrimmedTruncateIsDangerous(q: string)
    requires q == "\tTRUNCATE\n"
    ensures IsDangerous(q)
  {
    DangerousSingleWord(q);
    TrimTabNewline(q);
    assert ToAsciiLower(q[1..9]) == "truncate";
  }

  /** Trimming "\tTRUNCATE\n" removes exactly the tab and the newline. */
  lemma TrimTabNewline(q: string)
    requires q == "\tTRUNCATE\n"
    ensures Trim(q) == q[1..9]
  {
    assert LeadingWhitespace(q) == 1 by {
      assert LeadingWhitespace(q[1..]) == 0;
    }
    assert TrailingWhitespace(q[1..]) == 1 by {
      assert q[1..][..|q[1..]| - 1] == q[1..9];
      assert TrailingWhitespace(q[1..9]) == 0;
    }
  }

  /** A run of spaces yields only empty pieces, which do not hide a word. */
  lemma LeadingSpacesDoNotHide(q: string)
    requires q == "  drop"
    ensures IsDangerous(q)
  {
    Word(q[2..], "drop");
    DangerousAtSpace(q[1..], 0);
    DangerousAtSpace(q, 0);
  }

  /** Only the space separates pieces: a tab inside a piece keeps it whole,
      so the denylisted word in it goes unnoticed. */
  lemma TabInsidePiecePasses(q: string)
    requires q == "drop\tt"
    ensures !IsDangerous(q)
  {
    DangerousSingleWord(q);
    assert LeadingWhitespace(q) == 0;
    assert TrailingWhitespace(q[0..]) == 0 by { assert q[0..] == q; }
    assert Trim(q) == q;
  }
}
