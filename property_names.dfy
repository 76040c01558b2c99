/**
  The text side of the configuration: how a comma-separated string such as
  "prop1, prop2" becomes the list of property names ["prop1", "prop2"].

  Java splits on the regular expression `\s*,\s*`, trims every piece with
  `String.trim` and keeps the non-empty pieces. Every character that `\s`
  matches is one that `trim` removes (code point at most U+0020), so this is
  the same as splitting on ',' alone, trimming each piece and dropping the
  empty ones; that is the definition used here.
 */
module PropertyNames {

  /** The characters `String.trim` removes: code points up to U+0020. */
  predicate IsTrimSpace(c: char) {
    c <= ' '
  }

  /** Every character of `s` is one that `trim` removes. */
  predicate AllSpace(s: string) {
    forall k :: 0 <= k < |s| ==> IsTrimSpace(s[k])
  }

  /** A name that tokenising can produce: non-empty, comma-free, and already trimmed. */
  predicate IsTrimmedName(n: string) {
    && n != ""
    && ',' !in n
    && !IsTrimSpace(n[0])
    && !IsTrimSpace(n[|n| - 1])
  }

  /** `s` without its leading trim-spaces. */
  function TrimStart(s: string): (r: string)
    ensures |r| <= |s|
  {
    if |s| > 0 && IsTrimSpace(s[0]) then TrimStart(s[1..]) else s
  }

  /** `TrimStart` keeps the longest suffix that does not start with a trim-space. */
  lemma {:induction false} TrimStartFacts(s: string)
    ensures TrimStart(s) == s[|s| - |TrimStart(s)|..]
    ensures AllSpace(s[..|s| - |TrimStart(s)|])
    ensures TrimStart(s) == [] || !IsTrimSpace(TrimStart(s)[0])
    decreases |s|
  {
    if |s| > 0 && IsTrimSpace(s[0]) {
      var u := s[1..];
      TrimStartFacts(u);
      var r := TrimStart(u);
      assert u[|u| - |r|..] == s[|s| - |r|..];
      assert s[..|s| - |r|] == [s[0]] + u[..|u| - |r|];
    } else {
      assert s[..0] == [];
    }
  }

  /** `s` without its trailing trim-spaces. */
  function TrimEnd(s: string): (r: string)
    ensures |r| <= |s|
  {
    if |s| > 0 && IsTrimSpace(s[|s| - 1]) then TrimEnd(s[..|s| - 1]) else s
  }

  /** `TrimEnd` keeps the longest prefix that does not end with a trim-space. */
  lemma {:induction false} TrimEndFacts(s: string)
    ensures TrimEnd(s) == s[..|TrimEnd(s)|]
    ensures AllSpace(s[|TrimEnd(s)|..])
    ensures TrimEnd(s) == [] || !IsTrimSpace(TrimEnd(s)[|TrimEnd(s)| - 1])
    decreases |s|
  {
    if |s| > 0 && IsTrimSpace(s[|s| - 1]) {
      var u := s[..|s| - 1];
      TrimEndFacts(u);
      var r := TrimEnd(u);
      assert u[..|r|] == s[..|r|];
      assert s[|r|..] == u[|r|..] + [s[|s| - 1]];
    } else {
      assert s[|s|..] == [] && s[..|s|] == s;
    }
  }

  /** Java's `String.trim`: drop the trim-spaces at both ends. */
  function Trim(s: string): (r: string)
    ensures |r| <= |s|
    ensures r == [] || (!IsTrimSpace(r[0]) && !IsTrimSpace(r[|r| - 1]))
  {
    var t := TrimStart(s);
    TrimStartFacts(s);
    TrimEndFacts(t);
    TrimEnd(t)
  }

  /** `Trim` keeps one stretch of `s`: the one that starts where `TrimStart` does. */
  lemma TrimIsInfix(s: string)
    ensures |s| - |TrimStart(s)| + |Trim(s)| <= |s|
    ensures Trim(s) == s[|s| - |TrimStart(s)|..|s| - |TrimStart(s)| + |Trim(s)|]
  {
    var t := TrimStart(s);
    var r := TrimEnd(t);
    var i := |s| - |t|;
    TrimStartFacts(s);
    TrimEndFacts(t);
    assert s[i..][..|r|] == s[i..i + |r|];
  }

  /** `Trim` gives the empty string exactly when `s` is all trim-spaces. */
  lemma TrimEmpty(s: string)
    ensures Trim(s) == [] <==> AllSpace(s)
  {
    var t := TrimStart(s);
    var r := TrimEnd(t);
    TrimStartFacts(s);
    TrimEndFacts(t);
    if r == [] {
      assert t == [] by {
        assert AllSpace(t[|r|..]);
        assert t[|r|..] == t;
      }
      assert s[..|s|] == s;
    } else {
      TrimIsInfix(s);
      assert s[|s| - |t|] == r[0];
    }
  }

  /** A trimmed string keeps only characters of the original. */
  lemma TrimSubset(s: string, c: char)
    requires c in Trim(s)
    ensures c in s
  {
    TrimIsInfix(s);
    var i := |s| - |TrimStart(s)|;
    var k :| 0 <= k < |Trim(s)| && Trim(s)[k] == c;
    assert s[i + k] == c;
  }

  /**
    The pieces of `s` between commas, in order, empty pieces included
    ("a,,b" has three pieces, "" has one).
   */
  function Split(s: string): (r: seq<string>)
    ensures |r| >= 1
  {
    if s == [] then [""]
    else
      var rest := Split(s[1..]);
      if s[0] == ',' then [""] + rest
      else [[s[0]] + rest[0]] + rest[1..]
  }

  /** The pieces, trimmed, with the ones that trim to nothing dropped; order is kept. */
  function Clean(pieces: seq<string>): (r: seq<string>)
    ensures |r| <= |pieces|
  {
    if pieces == [] then []
    else
      var t := Trim(pieces[0]);
      (if t == "" then [] else [t]) + Clean(pieces[1..])
  }

  /** The property names listed in a comma-separated string. */
  function Tokens(s: string): seq<string> {
    Clean(Split(s))
  }

  /** `names` with `sep` between consecutive elements. */
  function Join(names: seq<string>, sep: string): string {
    if |names| == 0 then ""
    else if |names| == 1 then names[0]
    else names[0] + sep + Join(names[1..], sep)
  }

  // ---------------------------------------------------------------------
  // Splitting and joining

  /** No piece holds a comma. */
  lemma {:induction false} SplitCommaFree(s: string)
    ensures forall k :: 0 <= k < |Split(s)| ==> ',' !in Split(s)[k]
    decreases |s|
  {
    if s != [] {
      SplitCommaFree(s[1..]);
      var rest := Split(s[1..]);
      if s[0] != ',' {
        assert ',' !in [s[0]] + rest[0];
        assert forall k :: 1 <= k < |Split(s)| ==> Split(s)[k] == rest[k];
      } else {
        assert forall k :: 1 <= k < |Split(s)| ==> Split(s)[k] == rest[k - 1];
      }
    }
  }

  /** The pieces of a string with one more character in front. */
  lemma SplitCons(c: char, t: string)
    ensures Split([c] + t) ==
      if c == ',' then [""] + Split(t) else [[c] + Split(t)[0]] + Split(t)[1..]
  {
    assert ([c] + t)[0] == c && ([c] + t)[1..] == t;
  }

  /** Concatenation is associative. */
  lemma AppendAssoc<T>(a: seq<T>, b: seq<T>, c: seq<T>)
    ensures (a + b) + c == a + (b + c)
  {
  }

  /** Dropping the first element of a concatenation whose left part is non-empty. */
  lemma DropFirstOfAppend<T>(a: seq<T>, b: seq<T>)
    requires |a| >= 1
    ensures (a + b)[0] == a[0] && (a + b)[1..] == a[1..] + b
  {
  }

  /** The step of `SplitAtComma`: one more character in front of the left side. */
  lemma SplitAtCommaStep(c: char, u: string, y: string)
    requires Split(u + "," + y) == Split(u) + Split(y)
    ensures Split([c] + (u + "," + y)) == Split([c] + u) + Split(y)
  {
    var pu, py := Split(u), Split(y);
    SplitCons(c, u + "," + y);
    SplitCons(c, u);
    if c == ',' {
      AppendAssoc([""], pu, py);
    } else {
      DropFirstOfAppend(pu, py);
      AppendAssoc([[c] + pu[0]], pu[1..], py);
    }
  }

  /** Splitting at a comma splits the two sides independently. */
  lemma {:induction false} SplitAtComma(x: string, y: string)
    ensures Split(x + "," + y) == Split(x) + Split(y)
    decreases |x|
  {
    if x == [] {
      assert x + "," + y == [','] + y;
      SplitCons(',', y);
    } else {
      SplitAtComma(x[1..], y);
      SplitAtCommaStep(x[0], x[1..], y);
      assert [x[0]] + x[1..] == x;
      AppendAssoc([x[0]], x[1..] + ",", y);
      AppendAssoc([x[0]], x[1..], ",");
    }
  }

  /** A comma-free string is a single piece. */
  lemma {:induction false} SplitNoComma(x: string)
    requires ',' !in x
    ensures Split(x) == [x]
    decreases |x|
  {
    if x != [] {
      assert ',' !in x[1..] by {
        forall k | 0 <= k < |x[1..]| ensures x[1..][k] != ',' {
          assert x[1..][k] == x[k + 1];
        }
      }
      SplitNoComma(x[1..]);
      assert [x[0]] + x[1..] == x;
    }
  }

  /** Joining the pieces with "," gives back the string that was split. */
  lemma {:induction false} JoinSplit(s: string)
    ensures Join(Split(s), ",") == s
    decreases |s|
  {
    if s != [] {
      var rest := Split(s[1..]);
      JoinSplit(s[1..]);
      if s[0] == ',' {
        assert Split(s) == [""] + rest;
        assert ([""] + rest)[1..] == rest;
        assert s == "," + s[1..];
      } else {
        if |rest| == 1 {
          assert s == [s[0]] + s[1..];
        } else {
          assert Join(rest, ",") == rest[0] + "," + Join(rest[1..], ",");
          assert ([[s[0]] + rest[0]] + rest[1..])[1..] == rest[1..];
          assert s == [s[0]] + s[1..];
        }
      }
    }
  }

  /** Splitting comma-free pieces joined with "," gives back the pieces. */
  lemma {:induction false} SplitJoin(pieces: seq<string>)
    requires |pieces| >= 1
    requires forall k :: 0 <= k < |pieces| ==> ',' !in pieces[k]
    ensures Split(Join(pieces, ",")) == pieces
    decreases |pieces|
  {
    if |pieces| == 1 {
      SplitNoComma(pieces[0]);
    } else {
      SplitJoin(pieces[1..]);
      SplitAtComma(pieces[0], Join(pieces[1..], ","));
      SplitNoComma(pieces[0]);
      assert [pieces[0]] + pieces[1..] == pieces;
    }
  }

  // ---------------------------------------------------------------------
  // Trimming

  /** Trim-spaces in front of a string that does not start with one are exactly what `TrimStart` removes. */
  lemma {:induction false} TrimStartOfPadded(a: string, x: string)
    requires AllSpace(a)
    requires x == [] || !IsTrimSpace(x[0])
    ensures TrimStart(a + x) == x
    decreases |a|
  {
    if a == [] {
      assert a + x == x;
    } else {
      assert (a + x)[0] == a[0];
      assert (a + x)[1..] == a[1..] + x;
      TrimStartOfPadded(a[1..], x);
    }
  }

  /** Trim-spaces after a string that does not end with one are exactly what `TrimEnd` removes. */
  lemma {:induction false} TrimEndOfPadded(x: string, b: string)
    requires AllSpace(b)
    requires x == [] || !IsTrimSpace(x[|x| - 1])
    ensures TrimEnd(x + b) == x
    decreases |b|
  {
    if b == [] {
      assert x + b == x;
    } else {
      assert (x + b)[|x + b| - 1] == b[|b| - 1];
      assert (x + b)[..|x + b| - 1] == x + b[..|b| - 1];
      TrimEndOfPadded(x, b[..|b| - 1]);
    }
  }

  /** Trimming a name padded with trim-spaces on both sides gives the name back. */
  lemma TrimOfPadded(a: string, n: string, b: string)
    requires AllSpace(a) && AllSpace(b)
    requires n != [] && !IsTrimSpace(n[0]) && !IsTrimSpace(n[|n| - 1])
    ensures Trim(a + n + b) == n
  {
    assert a + n + b == a + (n + b);
    assert (n + b)[0] == n[0];
    TrimStartOfPadded(a, n + b);
    TrimEndOfPadded(n, b);
  }

  // ---------------------------------------------------------------------
  // Tokenising

  /** Cleaning distributes over concatenation of the piece lists. */
  lemma {:induction false} CleanAppend(p: seq<string>, q: seq<string>)
    ensures Clean(p + q) == Clean(p) + Clean(q)
    decreases |p|
  {
    if p == [] {
      assert p + q == q;
    } else {
      assert (p + q)[0] == p[0];
      assert (p + q)[1..] == p[1..] + q;
      CleanAppend(p[1..], q);
    }
  }

  /** Cleaning one more piece appends its trimmed form, unless that is empty. */
  lemma CleanSnoc(p: seq<string>, x: string)
    ensures Clean(p + [x]) == Clean(p) + (if Trim(x) == "" then [] else [Trim(x)])
  {
    CleanAppend(p, [x]);
    assert Clean([x]) == (if Trim(x) == "" then [] else [Trim(x)]) + Clean([]);
  }

  /** Cleaning one more piece of a list appends that piece's trimmed form, unless it is empty. */
  lemma CleanPrefix(pieces: seq<string>, i: nat)
    requires i < |pieces|
    ensures Clean(pieces[..i + 1]) == Clean(pieces[..i]) + (if Trim(pieces[i]) == "" then [] else [Trim(pieces[i])])
  {
    assert pieces[..i + 1] == pieces[..i] + [pieces[i]];
    CleanSnoc(pieces[..i], pieces[i]);
  }

  /** The empty string lists no names. */
  lemma TokensOfEmpty()
    ensures Tokens("") == []
  {
    assert Split("") == [""];
    assert Trim("") == "";
  }

  /** A comma-free string lists its trimmed self, or nothing when that is empty. */
  lemma TokensNoComma(s: string)
    requires ',' !in s
    ensures Tokens(s) == if Trim(s) == "" then [] else [Trim(s)]
  {
    SplitNoComma(s);
  }

  /** Order: the names before a comma come first, then those after it. */
  lemma TokensAtComma(x: string, y: string)
    ensures Tokens(x + "," + y) == Tokens(x) + Tokens(y)
  {
    SplitAtComma(x, y);
    CleanAppend(Split(x), Split(y));
  }

  /** Every piece that cleaning keeps is a trimmed, non-empty, comma-free name. */
  lemma {:induction false} CleanWellFormed(pieces: seq<string>)
    requires forall k :: 0 <= k < |pieces| ==> ',' !in pieces[k]
    ensures forall k :: 0 <= k < |Clean(pieces)| ==> IsTrimmedName(Clean(pieces)[k])
    decreases |pieces|
  {
    if pieces != [] {
      CleanWellFormed(pieces[1..]);
      var t := Trim(pieces[0]);
      assert ',' !in t by {
        if ',' in t { TrimSubset(pieces[0], ','); }
      }
    }
  }

  /** Every name a string lists is non-empty, comma-free and has no surrounding trim-spaces. */
  lemma TokensWellFormed(s: string)
    ensures forall k :: 0 <= k < |Tokens(s)| ==> IsTrimmedName(Tokens(s)[k])
  {
    SplitCommaFree(s);
    CleanWellFormed(Split(s));
  }

  /** Every listed name is a trimmed piece of the string: nothing is invented. */
  lemma {:induction false} CleanFromPieces(pieces: seq<string>)
    ensures forall t :: t in Clean(pieces) ==> exists k :: 0 <= k < |pieces| && t == Trim(pieces[k])
    decreases |pieces|
  {
    if pieces != [] {
      CleanFromPieces(pieces[1..]);
      forall t | t in Clean(pieces) ensures exists k :: 0 <= k < |pieces| && t == Trim(pieces[k]) {
        if t != Trim(pieces[0]) {
          assert t in Clean(pieces[1..]);
          var j :| 0 <= j < |pieces[1..]| && t == Trim(pieces[1..][j]);
          assert pieces[1..][j] == pieces[j + 1];
        }
      }
    }
  }

  /**
    Round trip: names that are non-empty, trimmed and comma-free, joined by
    a comma with any trim-spaces around it (", ", " , ", ","), are listed
    back exactly, in order.
   */
  lemma TokensOfJoin(names: seq<string>, before: string, after: string)
    requires forall k :: 0 <= k < |names| ==> IsTrimmedName(names[k])
    requires AllSpace(before) && AllSpace(after)
    ensures Tokens(Join(names, before + "," + after)) == names
  {
    TokensOfPaddedJoin(names, before, after, "");
    assert "" + Join(names, before + "," + after) == Join(names, before + "," + after);
  }

  /** Trim-spaces hold no comma, so padding a comma-free string keeps it comma-free. */
  lemma PaddedNoComma(a: string, n: string, b: string)
    requires AllSpace(a) && AllSpace(b) && ',' !in n
    ensures ',' !in a + n + b
  {
    var s := a + n + b;
    forall k | 0 <= k < |s| ensures s[k] != ',' {
      if k < |a| {
        assert IsTrimSpace(a[k]);
      } else if k < |a| + |n| {
        assert s[k] == n[k - |a|];
      } else {
        assert s[k] == b[k - |a| - |n|];
        assert IsTrimSpace(b[k - |a| - |n|]);
      }
    }
  }

  /** A trimmed name padded with trim-spaces lists exactly that name. */
  lemma TokensOfPaddedName(a: string, n: string, b: string)
    requires AllSpace(a) && AllSpace(b) && IsTrimmedName(n)
    ensures Tokens(a + n + b) == [n]
  {
    PaddedNoComma(a, n, b);
    TrimOfPadded(a, n, b);
    TokensNoComma(a + n + b);
  }

  /** `TokensOfJoin`, with the trim-spaces that follow the previous comma in front. */
  lemma {:induction false} TokensOfPaddedJoin(names: seq<string>, before: string, after: string, lead: string)
    requires forall k :: 0 <= k < |names| ==> IsTrimmedName(names[k])
    requires AllSpace(before) && AllSpace(after) && AllSpace(lead)
    ensures Tokens(lead + Join(names, before + "," + after)) == names
    decreases |names|
  {
    var sep := before + "," + after;
    if |names| == 0 {
      assert lead + Join(names, sep) == lead + "" + "" == lead;
      PaddedNoComma(lead, "", "");
      TrimEmpty(lead);
      TokensNoComma(lead);
    } else if |names| == 1 {
      assert lead + Join(names, sep) == lead + names[0] + "";
      TokensOfPaddedName(lead, names[0], "");
    } else {
      var first := lead + names[0] + before;
      var rest := after + Join(names[1..], sep);
      assert lead + Join(names, sep) == first + "," + rest;
      TokensAtComma(first, rest);
      TokensOfPaddedName(lead, names[0], before);
      TokensOfPaddedJoin(names[1..], before, after, after);
      assert [names[0]] + names[1..] == names;
    }
  }
}
