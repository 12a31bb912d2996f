/**
 * What pressing Enter does on a list line: the line before the caret is found from the
 * last line break, an empty bullet or numbered item is dropped together with the new
 * line break, and an item with content continues with the next marker.
 */
module ListProps {
  import opened Wrappers
  import opened Styles
  import opened Annotated
  import opened TextOps
  import opened Editing

  /** `before` ends where a line begins: it is empty or ends in a line break. */
  predicate LineBoundary(before: string) {
    before == [] || before[|before| - 1] == '\n'
  }

  /** The line the Enter branch inspects is the whole line just ended by the new '\n'. */
  lemma PrevLineOf(before: string, line: string, after: string)
    requires LineBoundary(before) && '\n' !in line
    ensures var t := before + line + "\n" + after;
      var c := |before| + |line| + 1;
      && 1 <= c <= |t| && t[c - 1] == '\n'
      && PrevLineStart(t, c) == |before|
      && t[|before|..c - 1] == line
      && t[..|before|] == before && t[c..] == after
  {
    var t := before + line + "\n" + after;
    var c := |before| + |line| + 1;
    var r := LastIndexOf(t, '\n', c - 2);
    forall j | |before| <= j <= c - 2 ensures t[j] != '\n' {
      assert t[j] == line[j - |before|];
    }
    if before != [] {
      assert t[|before| - 1] == before[|before| - 1];
    }
    assert r == |before| - 1;
    assert t[|before|..c - 1] == line;
    assert t[c..] == after;
  }

  /** Enter at the end of `line`: the list branch decides on `line` alone. */
  lemma EnterAfterLine(before: string, line: string, after: string)
    requires LineBoundary(before) && '\n' !in line
    ensures var t := before + line + "\n" + after;
      var c := |before| + |line| + 1;
      && 1 <= c <= |t| && t[c - 1] == '\n'
      && ListContinuation(t, c) == LineContinuation(before, line, after)
  {
    PrevLineOf(before, line, after);
  }

  /** A line that does not begin with a blank is its own `trimStart`. */
  lemma TrimStartOfUnblank(line: string)
    requires |line| > 0 && !IsWhitespace(line[0])
    ensures TrimStart(line) == line
  {
  }

  /** How the Enter branch reads a bullet line with content. */
  lemma BulletItemLine(rest: string)
    requires '\n' !in rest && !AllWhitespace(rest)
    ensures var line := BulletMarker + rest;
      '\n' !in line && Trim(line) != Bullet && StartsWith(line, BulletMarker)
  {
    var line := BulletMarker + rest;
    assert '\n' !in BulletMarker;
    var j :| 0 <= j < |rest| && !IsWhitespace(rest[j]);
    assert line[j + 2] == rest[j];
    TrimEndKeeps(line, j + 2);
    TrimStartOfUnblank(line);
    assert line[..|BulletMarker|] == BulletMarker;
  }

  /** How the Enter branch reads an empty numbered line. */
  lemma EmptyNumberedLine(n: nat, trail: string)
    requires AllWhitespace(trail) && '\n' !in trail
    ensures var line := Decimal(n) + ". " + trail;
      && '\n' !in line && Trim(line) == Decimal(n) + "." && Trim(line) != Bullet
      && !StartsWith(line, BulletMarker)
  {
    var d := Decimal(n);
    var line := d + ". " + trail;
    assert '\n' !in d && !IsWhitespace(d[0]) && d[0] != BulletMarker[0] by {
      DecimalHasNoBreak(n);
    }
    assert '\n' !in line by {
      assert '\n' !in ". ";
    }
    assert TrimEnd(line) == d + "." by {
      assert line == (d + ".") + (" " + trail);
      TrimEndWhitespace(d + ".", " " + trail);
    }
    assert TrimStart(line) == line by {
      assert line[0] == d[0];
      TrimStartOfUnblank(line);
    }
    assert (d + ".")[0] == d[0] && line[0] == d[0];
  }

  /** How the Enter branch reads a numbered line with content. */
  lemma NumberedItemLine(n: nat, rest: string)
    requires '\n' !in rest && !AllWhitespace(rest)
    ensures var line := Decimal(n) + ". " + rest;
      && '\n' !in line && Trim(line) != Decimal(n) + "." && Trim(line) != Bullet
      && !StartsWith(line, BulletMarker)
  {
    var d := Decimal(n);
    var line := d + ". " + rest;
    assert '\n' !in d && !IsWhitespace(d[0]) && d[0] != BulletMarker[0] by {
      DecimalHasNoBreak(n);
    }
    assert '\n' !in line by {
      assert '\n' !in ". ";
    }
    assert |TrimEnd(line)| > |d| + 2 by {
      var j :| 0 <= j < |rest| && !IsWhitespace(rest[j]);
      assert line[|d| + 2 + j] == rest[j];
      TrimEndKeeps(line, |d| + 2 + j);
    }
    assert TrimStart(line) == line by {
      assert line[0] == d[0];
      TrimStartOfUnblank(line);
    }
    assert line[0] == d[0];
  }

  /** How the Enter branch reads an empty bullet line. */
  lemma EmptyBulletLine(lead: string, trail: string)
    requires AllWhitespace(lead) && AllWhitespace(trail) && '\n' !in lead && '\n' !in trail
    ensures var line := lead + Bullet + trail;
      '\n' !in line && Trim(line) == Bullet
  {
    var line := lead + Bullet + trail;
    assert line == lead + (Bullet + trail);
    assert '\n' !in Bullet;
    TrimStartWhitespace(lead, Bullet + trail);
    TrimEndWhitespace(Bullet, trail);
  }

  /** An empty bullet item (`•` with only blanks around it) leaves list mode. */
  lemma EmptyBulletExits(before: string, lead: string, trail: string, after: string)
    requires AllWhitespace(lead) && AllWhitespace(trail) && '\n' !in lead && '\n' !in trail
    ensures LineContinuation(before, lead + Bullet + trail, after) == Some(ListEdit(before + after, |before|))
  {
    EmptyBulletLine(lead, trail);
  }

  /** A bullet item with content continues: the new line starts with a bullet marker. */
  lemma BulletItemContinues(before: string, rest: string, after: string)
    requires '\n' !in rest && !AllWhitespace(rest)
    ensures var line := BulletMarker + rest;
      LineContinuation(before, line, after)
        == Some(ListEdit(before + line + "\n" + BulletMarker + after, |before| + |line| + 1 + 2))
  {
    BulletItemLine(rest);
  }

  /** An empty numbered item (`"{n}."` and blanks) leaves list mode. */
  lemma EmptyNumberedItemExits(before: string, n: nat, trail: string, after: string)
    requires AllWhitespace(trail) && '\n' !in trail
    ensures LineContinuation(before, Decimal(n) + ". " + trail, after) == Some(ListEdit(before + after, |before|))
  {
    EmptyNumberedLine(n, trail);
    NumberMarkerOf(n, trail);
  }

  /** A numbered item `"{n}. "` with content continues with `"{n+1}. "`. */
  lemma NumberedItemContinues(before: string, n: nat, rest: string, after: string)
    requires '\n' !in rest && !AllWhitespace(rest)
    ensures var line := Decimal(n) + ". " + rest;
      var prefix := Decimal(n + 1) + ". ";
      LineContinuation(before, line, after)
        == Some(ListEdit(before + line + "\n" + prefix + after, |before| + |line| + 1 + |prefix|))
  {
    NumberedItemLine(n, rest);
    NumberMarkerOf(n, rest);
  }

  /** A line with no bullet that does not start with a digit is not a list item. */
  lemma PlainLineStops(before: string, line: string, after: string)
    requires '\U{2022}' !in line && (line == [] || !IsDigit(line[0]))
    ensures LineContinuation(before, line, after) == None
  {
    var ts := TrimStart(line);
    var tr := TrimEnd(ts);
    assert '\U{2022}' !in tr by {
      forall j | 0 <= j < |tr| ensures tr[j] != '\U{2022}' {
        assert tr[j] == line[|line| - |ts| + j];
      }
    }
    assert Trim(line) != Bullet by {
      assert Bullet[0] == '\U{2022}';
    }
    assert !StartsWith(line, BulletMarker) by {
      if |line| >= 2 {
        assert line[..2][0] == line[0];
      }
    }
    assert LeadingDigits(line) == 0;
  }
}
