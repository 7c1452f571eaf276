/**
 * Strings as the bot sees them: Python's substring test (`a in b`) and the
 * comma-joined text of one CSV line.
 */
module Text {

  /** Python's `sub in s`: does `sub` occur as a contiguous piece of `s`? */
  predicate Contains(s: string, sub: string)
    decreases |s|
  {
    |sub| <= |s| && (s[..|sub|] == sub || Contains(s[1..], sub))
  }

  /** The text of one CSV line: the cells separated by commas. */
  function Join(cells: seq<string>): (line: string)
    ensures |cells| == 1 ==> line == cells[0]
  {
    if |cells| == 0 then ""
    else if |cells| == 1 then cells[0]
    else cells[0] + "," + Join(cells[1..])
  }

  /** Contains agrees with the textbook definition: some window of `s` equals `sub`. */
  lemma {:induction false} ContainsAt(s: string, sub: string, i: nat)
    requires i + |sub| <= |s| && s[i..i + |sub|] == sub
    ensures Contains(s, sub)
    decreases i
  {
    if i > 0 {
      assert s[1..][i - 1..i - 1 + |sub|] == sub;
      ContainsAt(s[1..], sub, i - 1);
    }
  }

  lemma ContainsSelf(s: string)
    ensures Contains(s, s)
  {
    assert s[..|s|] == s;
  }

  /** Text found in a prefix is found in the whole. */
  lemma {:induction false} ContainsExtendRight(a: string, b: string, sub: string)
    requires Contains(a, sub)
    ensures Contains(a + b, sub)
    decreases |a|
  {
    if a[..|sub|] == sub {
      assert (a + b)[..|sub|] == sub;
    } else {
      ContainsExtendRight(a[1..], b, sub);
      assert (a + b)[1..] == a[1..] + b;
    }
  }

  /** Text found in a suffix is found in the whole. */
  lemma {:induction false} ContainsExtendLeft(a: string, b: string, sub: string)
    requires Contains(b, sub)
    ensures Contains(a + b, sub)
    decreases |a|
  {
    if |a| > 0 {
      ContainsExtendLeft(a[1..], b, sub);
      assert (a + b)[1..] == a[1..] + b;
      assert Contains((a + b)[1..], sub);
    } else {
      assert a + b == b;
    }
  }

  /** Text found in one cell is found in the line the cells make up. */
  lemma {:induction false} ContainsCell(cells: seq<string>, k: nat, sub: string)
    requires k < |cells| && Contains(cells[k], sub)
    ensures Contains(Join(cells), sub)
    decreases k
  {
    if |cells| > 1 {
      if k == 0 {
        ContainsExtendRight(cells[0], "," + Join(cells[1..]), sub);
        assert cells[0] + "," + Join(cells[1..]) == cells[0] + ("," + Join(cells[1..]));
      } else {
        ContainsCell(cells[1..], k - 1, sub);
        ContainsExtendLeft(cells[0] + ",", Join(cells[1..]), sub);
      }
    }
  }

  /** The converse of ContainsAt: text found in `s` sits in some window of `s`. */
  lemma {:induction false} ContainsWindow(s: string, sub: string) returns (i: nat)
    requires Contains(s, sub)
    ensures i + |sub| <= |s| && s[i..i + |sub|] == sub
    decreases |s|
  {
    if s[..|sub|] == sub {
      i := 0;
    } else {
      var j := ContainsWindow(s[1..], sub);
      i := j + 1;
      assert s[i..i + |sub|] == s[1..][j..j + |sub|];
    }
  }

  /** A character missing from `s` rules out every text that has it. */
  lemma MissingChar(s: string, sub: string, j: nat)
    requires j < |sub| && sub[j] !in s
    ensures !Contains(s, sub)
  {
    if Contains(s, sub) {
      var i := ContainsWindow(s, sub);
      assert false;
    }
  }

  /** Text without the separator `c` found in `a + [c] + b` lies in `a` or in `b`. */
  lemma ContainsAcross(a: string, c: char, b: string, sub: string)
    requires Contains(a + [c] + b, sub) && c !in sub
    ensures Contains(a, sub) || Contains(b, sub)
  {
    var s := a + [c] + b;
    var i := ContainsWindow(s, sub);
    if i + |sub| <= |a| {
      assert a[i..i + |sub|] == s[i..i + |sub|];
      ContainsAt(a, sub, i);
    } else if i > |a| {
      assert b[i - |a| - 1..i - |a| - 1 + |sub|] == s[i..i + |sub|];
      ContainsAt(b, sub, i - |a| - 1);
    } else {
      WindowChar(s, sub, i, |a| - i);
      assert false;
    }
  }

  lemma WindowChar(s: string, sub: string, i: nat, j: nat)
    requires i + |sub| <= |s| && s[i..i + |sub|] == sub && j < |sub|
    ensures s[i + j] == sub[j]
  {
  }

  /** Text without commas found in a joined line lies within one of its cells. */
  lemma {:induction false} CellOfJoin(cells: seq<string>, sub: string)
    requires Contains(Join(cells), sub) && ',' !in sub && |sub| > 0
    ensures exists k | 0 <= k < |cells| :: Contains(cells[k], sub)
    decreases |cells|
  {
    if |cells| == 0 {
      assert false;
    } else if |cells| > 1 {
      assert Join(cells) == cells[0] + [','] + Join(cells[1..]);
      ContainsAcross(cells[0], ',', Join(cells[1..]), sub);
      if !Contains(cells[0], sub) {
        CellOfJoin(cells[1..], sub);
        var k :| 0 <= k < |cells[1..]| && Contains(cells[1..][k], sub);
        assert Contains(cells[k + 1], sub);
      }
    }
  }
}
