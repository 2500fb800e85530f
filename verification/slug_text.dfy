/** The regular-expression rewrites that both slug rules are built from:
    `replace(/\s+/g, "-")`, `replace(/-+/g, "-")` and `replace(/^-|-$/g, "")`. */
module SlugText {
  import opened Text
  import Seqs

  predicate NoDoubleHyphen(s: string)
  {
    forall i :: 0 <= i < |s| - 1 ==> !(s[i] == '-' && s[i + 1] == '-')
  }

  predicate NotHyphen(c: char)
  {
    c != '-'
  }

  /** A character none of the three rewrites touches. */
  predicate IsWordChar(c: char)
  {
    !IsSpace(c) && c != '-'
  }

  /** The number of maximal runs of whitespace in `s`, counted at the last
      character of each run. */
  function SpaceRuns(s: string): nat
  {
    if s == [] then 0
    else (if IsSpace(s[0]) && (|s| == 1 || !IsSpace(s[1])) then 1 else 0) + SpaceRuns(s[1..])
  }

  /** `s.replace(/\s+/g, "-")`: every maximal run of whitespace becomes one
      hyphen (each whitespace character followed by another is dropped,
      the last one of a run becomes '-'). */
  function SpacesToHyphen(s: string): (r: string)
    ensures NoSpace(r)
    ensures forall i :: 0 <= i < |r| ==> r[i] == '-' || r[i] in s
    ensures NoSpace(s) ==> r == s
  {
    if s == [] then []
    else if IsSpace(s[0]) then
      (if |s| > 1 && IsSpace(s[1]) then SpacesToHyphen(s[1..]) else "-" + SpacesToHyphen(s[1..]))
    else [s[0]] + SpacesToHyphen(s[1..])
  }

  /** `SpacesToHyphen` keeps the other characters in order. */
  lemma {:induction false} SpacesToHyphenKeepsWords(s: string)
    ensures Seqs.Filter(SpacesToHyphen(s), NotHyphen) == Seqs.Filter(s, IsWordChar)
  {
    if s != [] {
      var rest := SpacesToHyphen(s[1..]);
      SpacesToHyphenKeepsWords(s[1..]);
      assert s == [s[0]] + s[1..];
      Seqs.FilterCons(s[0], s[1..], IsWordChar);
      if IsSpace(s[0]) {
        if |s| > 1 && IsSpace(s[1]) {
          assert SpacesToHyphen(s) == rest;
        } else {
          assert SpacesToHyphen(s) == ['-'] + rest;
          Seqs.FilterCons('-', rest, NotHyphen);
        }
      } else {
        assert SpacesToHyphen(s) == [s[0]] + rest;
        Seqs.FilterCons(s[0], rest, NotHyphen);
      }
    }
  }

  /** `SpacesToHyphen` adds exactly one hyphen per whitespace run. */
  lemma {:induction false} SpacesToHyphenCountsRuns(s: string)
    ensures multiset(SpacesToHyphen(s))['-'] == multiset(s)['-'] + SpaceRuns(s)
  {
    if s != [] {
      var rest := SpacesToHyphen(s[1..]);
      SpacesToHyphenCountsRuns(s[1..]);
      assert s == [s[0]] + s[1..];
      if IsSpace(s[0]) {
        if |s| > 1 && IsSpace(s[1]) {
          assert SpacesToHyphen(s) == rest;
        } else {
          assert SpacesToHyphen(s) == ['-'] + rest;
        }
      } else {
        assert SpacesToHyphen(s) == [s[0]] + rest;
      }
    }
  }

  /** One space between two words becomes one hyphen. */
  lemma {:induction false} SingleSpaceToHyphen(a: string, b: string)
    requires NoSpace(a) && NoSpace(b) && b != []
    ensures SpacesToHyphen(a + " " + b) == a + "-" + b
  {
    var s := a + " " + b;
    if a == [] {
      assert s == [' '] + b && s[1..] == b;
    } else {
      assert s[1..] == a[1..] + " " + b;
      SingleSpaceToHyphen(a[1..], b);
      assert a + "-" + b == [a[0]] + (a[1..] + "-" + b);
    }
  }

  /** `s.replace(/-+/g, "-")`: every maximal run of hyphens becomes one; the
      other characters are kept in order. */
  function CollapseHyphens(s: string): (r: string)
    ensures NoDoubleHyphen(r)
    ensures |r| <= |s|
    ensures s != [] ==> r != [] && r[0] == s[0]
    ensures forall i :: 0 <= i < |r| ==> r[i] in s
    ensures NoDoubleHyphen(s) ==> r == s
  {
    if |s| <= 1 then s
    else
      var rest := CollapseHyphens(s[1..]);
      CollapseStep(s, rest);
      if s[0] == '-' && s[1] == '-' then rest else [s[0]] + rest
  }

  /** `CollapseHyphens` removes hyphens only: the other characters are kept
      in order. */
  lemma {:induction false} CollapseKeepsWords(s: string)
    ensures Seqs.Filter(CollapseHyphens(s), NotHyphen) == Seqs.Filter(s, NotHyphen)
  {
    if |s| > 1 {
      var rest := CollapseHyphens(s[1..]);
      CollapseKeepsWords(s[1..]);
      assert s == [s[0]] + s[1..];
      Seqs.FilterCons(s[0], s[1..], NotHyphen);
      if !(s[0] == '-' && s[1] == '-') {
        assert CollapseHyphens(s) == [s[0]] + rest;
        Seqs.FilterCons(s[0], rest, NotHyphen);
      }
    }
  }

  /** The shape facts of one step of `CollapseHyphens`, given those of the
      rest. */
  lemma CollapseStep(s: string, rest: string)
    requires |s| > 1
    requires NoDoubleHyphen(rest) && |rest| <= |s| - 1 && rest != [] && rest[0] == s[1]
    requires forall i :: 0 <= i < |rest| ==> rest[i] in s[1..]
    requires NoDoubleHyphen(s[1..]) ==> rest == s[1..]
    ensures !(s[0] == '-' && s[1] == '-') ==> NoDoubleHyphen([s[0]] + rest)
    ensures forall i :: 0 <= i < |rest| ==> rest[i] in s
    ensures NoDoubleHyphen(s) ==> !(s[0] == '-' && s[1] == '-') && rest == s[1..]
  {
    forall i | 0 <= i < |rest| ensures rest[i] in s {
      var c := rest[i];
      assert c in s[1..];
      var j :| 0 <= j < |s[1..]| && s[1..][j] == c;
      assert s[j + 1] == c;
    }
    if NoDoubleHyphen(s) {
      assert !(s[0] == '-' && s[1] == '-');
      forall i | 0 <= i < |s[1..]| - 1 ensures !(s[1..][i] == '-' && s[1..][i + 1] == '-') {
        assert s[1..][i] == s[i + 1] && s[1..][i + 1] == s[i + 2];
      }
    }
    if !(s[0] == '-' && s[1] == '-') {
      var r := [s[0]] + rest;
      forall i | 0 <= i < |r| - 1 ensures !(r[i] == '-' && r[i + 1] == '-') {
        if i > 0 {
          assert r[i] == rest[i - 1] && r[i + 1] == rest[i];
        }
      }
    }
  }

  /** `s.replace(/^-|-$/g, "")`: drops one leading and one trailing hyphen. */
  function StripEdgeHyphens(s: string): (r: string)
    ensures forall i :: 0 <= i < |r| ==> r[i] in s
    ensures NoDoubleHyphen(s) ==> NoDoubleHyphen(r)
    ensures NoDoubleHyphen(s) ==> r == [] || (r[0] != '-' && r[|r| - 1] != '-')
  {
    var a := if s != [] && s[0] == '-' then s[1..] else s;
    if a != [] && a[|a| - 1] == '-' then a[..|a| - 1] else a
  }

  /** `StripEdgeHyphens` removes hyphens only: the other characters are kept
      in order. */
  lemma StripEdgeKeepsWords(s: string)
    ensures Seqs.Filter(StripEdgeHyphens(s), NotHyphen) == Seqs.Filter(s, NotHyphen)
  {
    StripLeadingKeepsWords(s);
    StripTrailingKeepsWords(if s != [] && s[0] == '-' then s[1..] else s);
  }

  lemma StripTrailingKeepsWords(a: string)
    ensures Seqs.Filter(if a != [] && a[|a| - 1] == '-' then a[..|a| - 1] else a, NotHyphen) == Seqs.Filter(a, NotHyphen)
  {
    if a != [] && a[|a| - 1] == '-' {
      assert a == a[..|a| - 1] + ['-'];
      Seqs.FilterAppend(a[..|a| - 1], ['-'], NotHyphen);
      Seqs.FilterCons('-', [], NotHyphen);
    }
  }

  lemma StripLeadingKeepsWords(s: string)
    ensures Seqs.Filter(if s != [] && s[0] == '-' then s[1..] else s, NotHyphen) == Seqs.Filter(s, NotHyphen)
  {
    if s != [] && s[0] == '-' {
      assert s == ['-'] + s[1..];
      Seqs.FilterCons('-', s[1..], NotHyphen);
    }
  }
}
