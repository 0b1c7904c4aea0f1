/** ASCII text helpers shared by the contact book and the billing listing:
    the character classes of str.isspace/isalpha/isdigit, lower(), strip(),
    split() and " ".join(), substring containment, and Python's ordering of
    strings (code point by code point, a proper prefix first). */
module Text {

  /** The ASCII characters str.isspace accepts: space, \t \n \v \f \r and
      the four separators \x1c-\x1f. */
  predicate IsSpace(c: char)
  {
    c == ' ' || '\t' <= c <= '\r' || '\U{1C}' <= c <= '\U{1F}'
  }

  predicate IsUpper(c: char)
  {
    'A' <= c <= 'Z'
  }

  predicate IsLetter(c: char)
  {
    IsUpper(c) || 'a' <= c <= 'z'
  }

  predicate IsDigit(c: char)
  {
    '0' <= c <= '9'
  }

  /** str.isalpha: non-empty and letters only. */
  predicate IsAlpha(s: string)
  {
    |s| > 0 && forall i :: 0 <= i < |s| ==> IsLetter(s[i])
  }

  /** str.isdigit: non-empty and digits only. */
  predicate IsDigits(s: string)
  {
    |s| > 0 && forall i :: 0 <= i < |s| ==> IsDigit(s[i])
  }

  function LowerChar(c: char): (d: char)
    ensures IsUpper(c) ==> d as int == c as int + 32
    ensures !IsUpper(c) ==> d == c
    ensures !IsUpper(d)
  {
    if IsUpper(c) then (c as int + 32) as char else c
  }

  /** str.lower on ASCII. */
  function Lower(s: string): (r: string)
    ensures |r| == |s|
    ensures forall i :: 0 <= i < |s| ==> r[i] == LowerChar(s[i])
  {
    seq(|s|, i requires 0 <= i < |s| => LowerChar(s[i]))
  }

  /** The elements of s that differ from x, in their original order. */
  function Without<T(==,!new)>(s: seq<T>, x: T): (r: seq<T>)
    ensures |r| <= |s|
    ensures forall k :: k in r <==> k in s && k != x
  {
    if s == [] then []
    else
      var rest := Without(s[1..], x);
      assert forall k :: k in s <==> k == s[0] || k in s[1..];
      if s[0] == x then rest else [s[0]] + rest
  }

  /** The positions i >= from with s[i] != x, ascending. */
  function KeptPositions<T(==)>(s: seq<T>, x: T, from: nat): (p: seq<nat>)
    requires from <= |s|
    ensures forall m :: 0 <= m < |p| ==> from <= p[m] < |s|
    decreases |s| - from
  {
    if from == |s| then []
    else (if s[from] != x then [from] else []) + KeptPositions(s, x, from + 1)
  }

  /** r lists the elements of s at the positions p, which rise strictly. */
  ghost predicate PicksAt<T>(r: seq<T>, s: seq<T>, p: seq<nat>)
  {
    && |p| == |r|
    && (forall m :: 0 <= m < |p| ==> p[m] < |s| && r[m] == s[p[m]])
    && (forall m, m' :: 0 <= m < m' < |p| ==> p[m] < p[m'])
  }

  /** Without keeps the order: the m-th element left is the one at the
      m-th position whose element differs from x, and those positions are
      exactly the ones holding something other than x. */
  lemma {:induction false} WithoutKeepsOrder<T(!new)>(s: seq<T>, x: T, from: nat)
    requires from <= |s|
    ensures PicksAt(Without(s[from..], x), s, KeptPositions(s, x, from))
    ensures forall i :: from <= i < |s| ==> (s[i] != x <==> i in KeptPositions(s, x, from))
    decreases |s| - from
  {
    if from < |s| {
      WithoutKeepsOrder(s, x, from + 1);
      var u := s[from..];
      assert u[0] == s[from] && u[1..] == s[from + 1..];
      var r', p' := Without(s[from + 1..], x), KeptPositions(s, x, from + 1);
      if s[from] != x {
        var r, p := [s[from]] + r', [from] + p';
        assert Without(u, x) == r && KeptPositions(s, x, from) == p;
        forall m | 0 < m < |p|
          ensures p[m] < |s| && r[m] == s[p[m]]
        {
          assert p[m] == p'[m - 1] && r[m] == r'[m - 1];
        }
        forall m, m' | 0 <= m < m' < |p|
          ensures p[m] < p[m']
        {
          assert p[m'] == p'[m' - 1];
          if m > 0 {
            assert p[m] == p'[m - 1];
          }
        }
      } else {
        assert Without(u, x) == r' && KeptPositions(s, x, from) == p';
      }
    }
  }

  /** Distinct positions of a list without repeats pick distinct elements. */
  lemma PicksAtKeepsDistinct(r: seq<string>, s: seq<string>, p: seq<nat>)
    requires PicksAt(r, s, p)
    ensures NoDuplicates(s) ==> NoDuplicates(r)
  {
    forall i, j | 0 <= i < j < |r| && NoDuplicates(s)
      ensures r[i] != r[j]
    {
      assert p[i] < p[j];
    }
  }

  /** s.replace(" ", ""): the characters that are not blanks, in their
      original order (RemoveBlanksInOrder). */
  function RemoveBlanks(s: string): (r: string)
    ensures forall i :: 0 <= i < |r| ==> r[i] != ' ' && r[i] in s
    ensures forall i :: 0 <= i < |s| && s[i] != ' ' ==> s[i] in r
  {
    var r := Without(s, ' ');
    assert forall i :: 0 <= i < |r| ==> r[i] in r;
    r
  }

  /** The m-th character RemoveBlanks keeps is the m-th non-blank of s. */
  lemma RemoveBlanksInOrder(s: string)
    ensures PicksAt(RemoveBlanks(s), s, KeptPositions(s, ' ', 0))
    ensures forall i :: 0 <= i < |s| ==> (s[i] != ' ' <==> i in KeptPositions(s, ' ', 0))
  {
    WithoutKeepsOrder(s, ' ', 0);
    assert s[0..] == s;
  }

  /** Letters and blanks only, with at least one letter-or-other character. */
  predicate LettersAndBlanks(s: string)
  {
    && (exists i :: 0 <= i < |s| && s[i] != ' ')
    && forall i :: 0 <= i < |s| ==> s[i] == ' ' || IsLetter(s[i])
  }

  /** s.replace(" ", "").isalpha() holds exactly for the strings made of
      letters and blanks that are not all blank. */
  lemma AlphaWithoutBlanks(s: string)
    ensures IsAlpha(RemoveBlanks(s)) <==> LettersAndBlanks(s)
  {
    var r := RemoveBlanks(s);
    if IsAlpha(r) {
      assert r[0] in s;
      forall i | 0 <= i < |s|
        ensures s[i] == ' ' || IsLetter(s[i])
      {
        if s[i] != ' ' {
          var k :| 0 <= k < |r| && r[k] == s[i];
        }
      }
    }
    if LettersAndBlanks(s) {
      var i :| 0 <= i < |s| && s[i] != ' ';
      assert s[i] in r;
      forall k | 0 <= k < |r|
        ensures IsLetter(r[k])
      {
        var j :| 0 <= j < |s| && s[j] == r[k];
      }
    }
  }

  /** The suffix left after dropping leading whitespace. */
  function DropSpaces(s: string): (r: string)
    ensures |r| <= |s|
    ensures r == [] || !IsSpace(r[0])
    ensures forall i :: 0 <= i < |s| - |r| ==> IsSpace(s[i])
  {
    if s == [] || !IsSpace(s[0]) then s else DropSpaces(s[1..])
  }

  /** What DropSpaces leaves is a suffix of its input. */
  lemma {:induction false} DropSpacesIsSuffix(s: string)
    ensures DropSpaces(s) == s[|s| - |DropSpaces(s)|..]
  {
    if s != [] && IsSpace(s[0]) {
      DropSpacesIsSuffix(s[1..]);
      assert s[1..][|s[1..]| - |DropSpaces(s[1..])|..] == s[|s| - |DropSpaces(s)|..];
    }
  }

  /** The suffix left after dropping trailing whitespace. */
  function DropTrailingSpaces(s: string): (r: string)
    ensures |r| <= |s| && r == s[..|r|]
    ensures r == [] || !IsSpace(r[|r| - 1])
    ensures forall i :: |r| <= i < |s| ==> IsSpace(s[i])
  {
    if s == [] || !IsSpace(s[|s| - 1]) then s else DropTrailingSpaces(s[..|s| - 1])
  }

  /** str.strip(): the slice of s left after cutting the whitespace from
      both ends, all of it. */
  function Strip(s: string): (r: string)
    ensures r == [] || (!IsSpace(r[0]) && !IsSpace(r[|r| - 1]))
    ensures exists i, j ::
      && 0 <= i <= j <= |s| && r == s[i..j]
      && forall k :: 0 <= k < |s| && !(i <= k < j) ==> IsSpace(s[k])
  {
    var t := DropSpaces(s);
    var i := |s| - |t|;
    DropSpacesIsSuffix(s);
    var r := DropTrailingSpaces(t);
    var j := i + |r|;
    assert r == s[i..j];
    forall k | 0 <= k < |s| && !(i <= k < j)
      ensures IsSpace(s[k])
    {
      if k >= j {
        assert s[k] == t[k - i];
      }
    }
    r
  }

  /** The longest prefix without whitespace. */
  function WordPrefix(s: string): (w: string)
    ensures |w| <= |s| && w == s[..|w|]
    ensures forall i :: 0 <= i < |w| ==> !IsSpace(w[i])
    ensures |w| == |s| || IsSpace(s[|w|])
  {
    if s == [] || IsSpace(s[0]) then [] else [s[0]] + WordPrefix(s[1..])
  }

  /** A piece that split() returns: non-empty, no whitespace. */
  predicate IsWord(w: string)
  {
    |w| > 0 && forall i :: 0 <= i < |w| ==> !IsSpace(w[i])
  }

  /** str.split() with no separator: the maximal whitespace-free runs. */
  function Words(s: string): (ws: seq<string>)
    ensures forall k :: 0 <= k < |ws| ==> IsWord(ws[k])
    decreases |s|
  {
    var t := DropSpaces(s);
    if t == [] then []
    else
      var w := WordPrefix(t);
      assert |w| > 0;
      var rest := Words(t[|w|..]);
      assert IsWord(w);
      [w] + rest
  }

  predicate AllSpace(s: string)
  {
    forall i :: 0 <= i < |s| ==> IsSpace(s[i])
  }

  /** Leading whitespace gets dropped with the rest's own leading whitespace. */
  lemma {:induction false} DropSpacesOfBlanks(sp: string, t: string)
    requires AllSpace(sp)
    ensures DropSpaces(sp + t) == DropSpaces(t)
  {
    if sp != [] {
      assert (sp + t)[0] == sp[0] && (sp + t)[1..] == sp[1..] + t;
      DropSpacesOfBlanks(sp[1..], t);
    } else {
      assert sp + t == t;
    }
  }

  /** split() on any input: whitespace alone gives no words, and a word
      between whitespace runs (any run before it, a non-empty one after it,
      or the end of the string) is the next word. */
  lemma WordsOfRuns(sp: string, w: string, sp2: string, t: string)
    requires AllSpace(sp) && IsWord(w) && AllSpace(sp2) && sp2 != []
    ensures Words(sp) == []
    ensures Words(sp + w) == [w]
    ensures Words(sp + w + sp2 + t) == [w] + Words(t)
  {
    DropSpacesOfBlanks(sp, []);
    assert sp + [] == sp;
    DropSpacesOfBlanks(sp, w);
    WordPrefixOfWordThenSpace(w, []);
    assert w + [] == w;
    assert w[|w|..] == [];
    var u := sp2 + t;
    assert sp + w + sp2 + t == sp + (w + u);
    DropSpacesOfBlanks(sp, w + u);
    assert (w + u)[0] == w[0];
    WordPrefixOfWordThenSpace(w, u);
    assert (w + u)[|w|..] == u;
    DropSpacesOfBlanks(sp2, t);
  }

  /** " ".join(ws). */
  function Join(ws: seq<string>): string
  {
    if ws == [] then []
    else if |ws| == 1 then ws[0]
    else ws[0] + " " + Join(ws[1..])
  }

  /** " ".join(raw.strip().split()).lower(): the form names are kept and
      searched in.  strip() is subsumed by split(). */
  function Normalize(raw: string): string
  {
    Lower(Join(Words(raw)))
  }

  /** No leading, trailing or doubled space, and no whitespace but ' '. */
  predicate Tidy(t: string)
  {
    && (t == [] || (t[0] != ' ' && t[|t| - 1] != ' '))
    && (forall i :: 0 <= i < |t| ==> IsSpace(t[i]) ==> t[i] == ' ')
    && (forall i :: 0 < i < |t| ==> t[i - 1] == ' ' ==> t[i] != ' ')
  }

  /** A normalised string: tidy and free of upper-case letters. */
  predicate Normalized(t: string)
  {
    Tidy(t) && forall i :: 0 <= i < |t| ==> !IsUpper(t[i])
  }

  function LowerAll(ws: seq<string>): (r: seq<string>)
    ensures |r| == |ws|
    ensures forall k :: 0 <= k < |ws| ==> r[k] == Lower(ws[k])
  {
    seq(|ws|, k requires 0 <= k < |ws| => Lower(ws[k]))
  }

  lemma {:induction false} WordPrefixOfWordThenSpace(w: string, rest: string)
    requires forall i :: 0 <= i < |w| ==> !IsSpace(w[i])
    requires rest == [] || IsSpace(rest[0])
    ensures WordPrefix(w + rest) == w
  {
    var s := w + rest;
    if w == [] {
      assert s == rest;
    } else {
      assert s[0] == w[0] && !IsSpace(s[0]);
      assert s[1..] == w[1..] + rest;
      WordPrefixOfWordThenSpace(w[1..], rest);
      assert WordPrefix(s) == [s[0]] + WordPrefix(s[1..]);
      assert w == [w[0]] + w[1..];
    }
  }

  /** split() of a word, a space and more. */
  lemma WordsOfWordSpace(w: string, j: string)
    requires IsWord(w)
    ensures Words(w + (" " + j)) == [w] + Words(j)
  {
    var t := w + (" " + j);
    WordPrefixOfWordThenSpace(w, " " + j);
    assert t[0] == w[0];
    WordsOfWordStart(t);
    assert t[|w|..] == " " + j;
    assert DropSpaces(" " + j) == DropSpaces(j) by {
      assert (" " + j)[1..] == j;
    }
  }

  /** split() undoes " ".join() on a list of words. */
  lemma {:induction false} WordsOfJoin(ws: seq<string>)
    requires forall k :: 0 <= k < |ws| ==> IsWord(ws[k])
    ensures Words(Join(ws)) == ws
  {
    if ws == [] {
    } else if |ws| == 1 {
      WordPrefixOfWordThenSpace(ws[0], []);
      assert ws[0] + [] == ws[0];
      WordsOfWordStart(ws[0]);
      assert ws[0][|ws[0]|..] == [];
    } else {
      var w, j := ws[0], Join(ws[1..]);
      assert Join(ws) == w + (" " + j);
      WordsOfWordSpace(w, j);
      WordsOfJoin(ws[1..]);
      assert ws == [w] + ws[1..];
    }
  }

  lemma JoinStartsWithWord(ws: seq<string>)
    requires |ws| > 0 && IsWord(ws[0])
    ensures |Join(ws)| > 0 && Join(ws)[0] == ws[0][0]
  {
  }

  /** " ".join() of words is tidy. */
  lemma {:induction false} JoinIsTidy(ws: seq<string>)
    requires forall k :: 0 <= k < |ws| ==> IsWord(ws[k])
    ensures Tidy(Join(ws))
  {
    if |ws| > 1 {
      var w, j := ws[0], Join(ws[1..]);
      JoinIsTidy(ws[1..]);
      JoinStartsWithWord(ws[1..]);
      var t := w + " " + j;
      assert Join(ws) == t;
      forall i | 0 <= i < |t|
        ensures IsSpace(t[i]) ==> t[i] == ' '
      {
        if i > |w| {
          assert t[i] == j[i - |w| - 1];
        }
      }
      forall i | 0 < i < |t|
        ensures t[i - 1] == ' ' ==> t[i] != ' '
      {
        if i > |w| + 1 {
          assert t[i - 1] == j[i - 1 - |w| - 1] && t[i] == j[i - |w| - 1];
        }
      }
    }
  }

  lemma LowerOfConcat(a: string, b: string)
    ensures Lower(a + b) == Lower(a) + Lower(b)
  {
    assert forall i :: 0 <= i < |a + b| ==> Lower(a + b)[i] == (Lower(a) + Lower(b))[i];
  }

  /** Lowering commutes with " ".join(). */
  lemma {:induction false} LowerOfJoin(ws: seq<string>)
    ensures Lower(Join(ws)) == Join(LowerAll(ws))
  {
    if |ws| > 1 {
      LowerOfJoin(ws[1..]);
      LowerOfConcat(ws[0] + " ", Join(ws[1..]));
      LowerOfConcat(ws[0], " ");
      assert LowerAll(ws)[1..] == LowerAll(ws[1..]);
    }
  }

  lemma LowerKeepsWords(ws: seq<string>)
    requires forall k :: 0 <= k < |ws| ==> IsWord(ws[k])
    ensures forall k :: 0 <= k < |ws| ==> IsWord(LowerAll(ws)[k])
  {
  }

  lemma LowerKeepsTidy(t: string)
    requires Tidy(t)
    ensures Normalized(Lower(t))
  {
  }

  /** The normalised form is tidy and lower-case, and its words are the
      words of the raw input, lowered. */
  lemma NormalizeMeaning(raw: string)
    ensures Normalized(Normalize(raw))
    ensures Words(Normalize(raw)) == LowerAll(Words(raw))
  {
    var ws := Words(raw);
    JoinIsTidy(ws);
    LowerKeepsTidy(Join(ws));
    LowerOfJoin(ws);
    LowerKeepsWords(ws);
    WordsOfJoin(LowerAll(ws));
  }

  /** A string that starts with a non-space splits into its first word
      and the words of the rest. */
  lemma WordsOfWordStart(t: string)
    requires t != [] && !IsSpace(t[0])
    ensures Words(t) == [WordPrefix(t)] + Words(t[|WordPrefix(t)|..])
  {
    assert DropSpaces(t) == t;
  }

  /** A suffix of a tidy string that starts with a non-space is tidy. */
  lemma TidySuffix(t: string, k: nat)
    requires Tidy(t) && k < |t| && t[k] != ' '
    ensures Tidy(t[k..])
  {
    var u := t[k..];
    forall i | 0 <= i < |u|
      ensures IsSpace(u[i]) ==> u[i] == ' '
    {
      assert u[i] == t[k + i];
    }
    forall i | 0 < i < |u|
      ensures u[i - 1] == ' ' ==> u[i] != ' '
    {
      assert u[i - 1] == t[k + i - 1] && u[i] == t[k + i];
    }
    assert u[|u| - 1] == t[|t| - 1];
  }

  /** In a tidy string the first word is followed by one space and a tidy
      rest that starts with a word. */
  lemma TidyAfterWord(t: string)
    requires Tidy(t) && t != [] && |WordPrefix(t)| < |t|
    ensures var w := WordPrefix(t); var tail := t[|w| + 1..];
      && t == w + " " + tail
      && tail != [] && !IsSpace(tail[0]) && Tidy(tail)
      && Words(t[|w|..]) == Words(tail)
  {
    var w := WordPrefix(t);
    var k := |w| + 1;
    assert t[|w|] == ' ';
    assert |w| > 0;
    assert k < |t| && t[k] != ' ';
    TidySuffix(t, k);
    var tail := t[k..];
    assert t[|w|..][1..] == tail;
    assert DropSpaces(t[|w|..]) == DropSpaces(tail);
    assert t == w + " " + tail;
  }

  /** " ".join() of a word and a non-empty list. */
  lemma JoinCons(w: string, ws: seq<string>)
    requires ws != []
    ensures Join([w] + ws) == w + " " + Join(ws)
  {
    assert ([w] + ws)[1..] == ws;
  }

  /** " ".join() rebuilds a tidy string from its words. */
  lemma {:induction false} JoinOfWords(t: string)
    requires Tidy(t)
    ensures Join(Words(t)) == t
    decreases |t|
  {
    if t != [] {
      WordsOfWordStart(t);
      var w := WordPrefix(t);
      if |w| < |t| {
        var tail := t[|w| + 1..];
        TidyAfterWord(t);
        JoinOfWords(tail);
        WordsOfWordStart(tail);
        JoinCons(w, Words(tail));
      } else {
        assert t[|w|..] == [];
      }
    }
  }

  /** Normalising is idempotent; the normalised strings are exactly its
      fixed points. */
  lemma NormalizeFixedPoints(t: string)
    ensures Normalize(t) == t <==> Normalized(t)
    ensures Normalize(Normalize(t)) == Normalize(t)
  {
    NormalizeMeaning(t);
    if Normalized(t) {
      JoinOfWords(t);
      assert Lower(t) == t;
    }
    var n := Normalize(t);
    NormalizeMeaning(n);
    JoinOfWords(n);
    assert Lower(n) == n;
  }

  /** Python's `q in s` for strings. */
  predicate Contains(s: string, q: string)
  {
    exists i :: 0 <= i <= |s| && OccursAt(s, q, i)
  }

  predicate OccursAt(s: string, q: string, i: int)
  {
    0 <= i <= |s| - |q| && s[i..i + |q|] == q
  }

  /** Python's s < t on strings. */
  predicate Less(s: string, t: string)
  {
    if s == [] then t != []
    else if t == [] then false
    else if s[0] != t[0] then s[0] < t[0]
    else Less(s[1..], t[1..])
  }

  lemma {:induction false} LessIrreflexive(s: string)
    ensures !Less(s, s)
  {
    if s != [] {
      LessIrreflexive(s[1..]);
    }
  }

  /** The order on strings is a strict total order. */
  lemma {:induction false} LessTotal(s: string, t: string)
    ensures !(Less(s, t) && Less(t, s))
    ensures !Less(s, s)
    ensures s != t ==> Less(s, t) || Less(t, s)
  {
    LessIrreflexive(s);
    if s != [] && t != [] {
      LessTotal(s[1..], t[1..]);
      if s[0] == t[0] && s != t {
        assert s == [s[0]] + s[1..] && t == [t[0]] + t[1..];
      }
    }
  }

  lemma {:induction false} LessTransitive(a: string, b: string, c: string)
    requires Less(a, b) && Less(b, c)
    ensures Less(a, c)
  {
    if a != [] && b != [] && c != [] && a[0] == b[0] && b[0] == c[0] {
      LessTransitive(a[1..], b[1..], c[1..]);
    }
  }

  /** Each string precedes the next. */
  predicate Ascending(s: seq<string>)
  {
    forall i :: 0 < i < |s| ==> Less(s[i - 1], s[i])
  }

  /** Ascending order between any two positions, not just neighbours. */
  lemma {:induction false} AscendingIsSorted(s: seq<string>, i: nat, j: nat)
    requires Ascending(s) && i < j < |s|
    ensures Less(s[i], s[j])
    decreases j - i
  {
    if i + 1 < j {
      AscendingIsSorted(s, i + 1, j);
      LessTransitive(s[i], s[i + 1], s[j]);
    }
  }

  /** Appending a new element keeps a list free of repeats. */
  lemma AppendNew(s: seq<string>, x: string)
    requires NoDuplicates(s) && x !in s
    ensures NoDuplicates(s + [x])
  {
    assert forall i :: 0 <= i < |s| ==> (s + [x])[i] == s[i];
  }

  /** An ascending list has no repeats. */
  lemma AscendingIsDistinct(s: seq<string>)
    requires Ascending(s)
    ensures NoDuplicates(s)
  {
    forall i, j | 0 <= i < j < |s|
      ensures s[i] != s[j]
    {
      AscendingIsSorted(s, i, j);
      LessIrreflexive(s[i]);
    }
  }

  /** Insert x into an ascending list that lacks it. */
  function Insert(s: seq<string>, x: string): (r: seq<string>)
    requires Ascending(s) && x !in s
    ensures Ascending(r) && multiset(r) == multiset(s) + multiset{x}
    ensures |r| > 0 && (r[0] == x || (s != [] && r[0] == s[0]))
  {
    if s == [] || Less(x, s[0]) then [x] + s
    else
      LessTotal(x, s[0]);
      var rest := Insert(s[1..], x);
      assert s == [s[0]] + s[1..];
      assert Ascending(s[1..]) by {
        assert forall i :: 0 < i < |s[1..]| ==> s[1..][i - 1] == s[i] && s[1..][i] == s[i + 1];
      }
      [s[0]] + rest
  }

  predicate NoDuplicates(s: seq<string>)
  {
    forall i, j :: 0 <= i < j < |s| ==> s[i] != s[j]
  }

  /** sorted(names) for a list without repeats: ascending, same members. */
  function Sorted(names: seq<string>): (r: seq<string>)
    requires NoDuplicates(names)
    ensures Ascending(r) && |r| == |names|
    ensures forall k :: k in r <==> k in names
  {
    if names == [] then []
    else
      var init, x := names[..|names| - 1], names[|names| - 1];
      assert names == init + [x];
      assert x !in init;
      var r := Insert(Sorted(init), x);
      assert forall k :: k in r <==> k in multiset(r);
      r
  }

  /** The list without the entries equal to x, the others in their
      original order (RemoveInOrder). */
  function Remove(s: seq<string>, x: string): (r: seq<string>)
    ensures forall k :: k in r <==> k in s && k != x
    ensures NoDuplicates(s) ==> NoDuplicates(r)
  {
    RemoveInOrder(s, x);
    Without(s, x)
  }

  /** Without x, the m-th entry left is the one at the m-th position of s
      that does not hold x; a list without repeats keeps none. */
  lemma RemoveInOrder(s: seq<string>, x: string)
    ensures PicksAt(Without(s, x), s, KeptPositions(s, x, 0))
    ensures forall i :: 0 <= i < |s| ==> (s[i] != x <==> i in KeptPositions(s, x, 0))
    ensures NoDuplicates(s) ==> NoDuplicates(Without(s, x))
  {
    WithoutKeepsOrder(s, x, 0);
    assert s[0..] == s;
    PicksAtKeepsDistinct(Without(s, x), s, KeptPositions(s, x, 0));
  }

  /** A list of distinct names has as many entries as the set it lists. */
  lemma {:induction false} CountOfDistinct(order: seq<string>, keys: set<string>)
    requires NoDuplicates(order) && forall k :: k in order <==> k in keys
    ensures |keys| == |order|
  {
    if order != [] {
      var init, last := order[..|order| - 1], order[|order| - 1];
      assert order == init + [last];
      assert last !in init;
      CountOfDistinct(init, keys - {last});
    }
  }
}
