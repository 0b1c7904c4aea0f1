/** Characters that occur once (Day2/day2-non-repeating-char.py): a loop
    fills freq with the count of every character, then a second loop
    outputs, in order, every character of s whose count is 1 and sets
    found.  The input string is a parameter and the printing is left to
    the caller. */
module NonRepeating {

  /** How often c occurs in s. */
  function Count(s: string, c: char): (n: nat)
    ensures n <= |s|
  {
    if s == [] then 0 else Count(s[..|s| - 1], c) + (if s[|s| - 1] == c then 1 else 0)
  }

  /** The count is the multiplicity of c in s. */
  lemma {:induction false} CountIsMultiplicity(s: string, c: char)
    ensures Count(s, c) == multiset(s)[c]
    ensures c in s <==> Count(s, c) > 0
  {
    if s != [] {
      var init, last := s[..|s| - 1], s[|s| - 1];
      CountIsMultiplicity(init, c);
      assert s == init + [last];
      assert multiset(s) == multiset(init) + multiset{last};
    }
  }

  lemma CountOfLonger(s: string, i: nat, c: char)
    requires i < |s|
    ensures Count(s[..i + 1], c) == Count(s[..i], c) + (if s[i] == c then 1 else 0)
    ensures c in s[..i + 1] <==> c in s[..i] || c == s[i]
  {
    assert s[..i + 1][..i] == s[..i];
    assert s[..i + 1] == s[..i] + [s[i]];
  }

  /** The first loop: freq holds exactly the characters of s, each with the
      number of times it occurs. */
  method Frequencies(s: string) returns (freq: map<char, nat>)
    ensures forall c :: c in freq <==> c in s
    ensures forall c :: c in freq ==> freq[c] == Count(s, c)
  {
    freq := map[];
    for i := 0 to |s|
      invariant forall c :: c in freq <==> c in s[..i]
      invariant forall c :: c in freq ==> freq[c] == Count(s[..i], c)
    {
      var ch := s[i];
      forall c
        ensures Count(s[..i + 1], c) == Count(s[..i], c) + (if ch == c then 1 else 0)
        ensures c in s[..i + 1] <==> c in s[..i] || c == ch
      {
        CountOfLonger(s, i, c);
      }
      if ch in freq {
        freq := freq[ch := freq[ch] + 1];
      } else {
        assert Count(s[..i], ch) == 0 by {
          CountIsMultiplicity(s[..i], ch);
        }
        freq := freq[ch := 1];
      }
    }
    assert s[..|s|] == s;
  }

  /** The keys of freq in insertion order: each character at its first
      occurrence. */
  function Keys(s: string): (keys: string)
    ensures forall c :: c in keys <==> c in s
  {
    if s == [] then []
    else
      var init, last := s[..|s| - 1], s[|s| - 1];
      Keys(init) + (if last in init then [] else [last])
  }

  predicate NoRepeats(keys: string)
  {
    forall i, j :: 0 <= i < j < |keys| ==> keys[i] != keys[j]
  }

  lemma {:induction false} KeysNoRepeats(s: string)
    ensures NoRepeats(Keys(s))
  {
    if s != [] {
      KeysNoRepeats(s[..|s| - 1]);
    }
  }

  /** The counts of s summed over a list of characters. */
  function SumCounts(s: string, keys: string): int
  {
    if keys == [] then 0 else SumCounts(s, keys[..|keys| - 1]) + Count(s, keys[|keys| - 1])
  }

  /** One more character of s raises the sum over keys by one if it is
      among them. */
  lemma {:induction false} SumCountsOfLonger(s: string, c: char, keys: string)
    requires NoRepeats(keys)
    ensures SumCounts(s + [c], keys) == SumCounts(s, keys) + (if c in keys then 1 else 0)
  {
    if keys != [] {
      var init, last := keys[..|keys| - 1], keys[|keys| - 1];
      assert NoRepeats(init);
      assert last !in init;
      assert (s + [c])[..|s|] == s;
      assert c in keys <==> c in init || c == last;
      SumCountsOfLonger(s, c, init);
    }
  }

  lemma SumCountsAppend(s: string, keys: string, c: char)
    ensures SumCounts(s, keys + [c]) == SumCounts(s, keys) + Count(s, c)
  {
    assert (keys + [c])[..|keys|] == keys;
  }

  /** The values of freq add up to the length of s. */
  lemma {:induction false} ValuesSumToLength(s: string)
    ensures SumCounts(s, Keys(s)) == |s|
  {
    if s != [] {
      var init, last := s[..|s| - 1], s[|s| - 1];
      ValuesSumToLength(init);
      KeysNoRepeats(init);
      assert s == init + [last];
      SumCountsOfLonger(init, last, Keys(init));
      assert Keys(s) == Keys(init) + (if last in init then [] else [last]);
      if last in init {
        assert Keys(s) == Keys(init);
      } else {
        SumCountsAppend(s, Keys(init), last);
        CountIsMultiplicity(init, last);
        assert Count(s, last) == 1;
      }
    }
  }

  /** The characters of t that occur exactly once in s, in t's order. */
  function Singles(s: string, t: string): (r: string)
    ensures |r| <= |t|
    ensures forall c :: c in r <==> c in t && Count(s, c) == 1
  {
    if t == [] then []
    else
      var init, last := t[..|t| - 1], t[|t| - 1];
      Singles(s, init) + (if Count(s, last) == 1 then [last] else [])
  }

  /** The second loop: the output is every character of s that occurs
      once, in order, and found tells whether there was one. */
  method PrintSingles(s: string, freq: map<char, nat>) returns (output: string, found: bool)
    requires forall c :: c in freq <==> c in s
    requires forall c :: c in freq ==> freq[c] == Count(s, c)
    ensures output == Singles(s, s)
    ensures found <==> output != []
  {
    output, found := [], false;
    for i := 0 to |s|
      invariant output == Singles(s, s[..i])
      invariant found <==> output != []
    {
      var ch := s[i];
      assert s[..i + 1][..i] == s[..i];
      assert ch in s;
      if freq[ch] == 1 {
        output := output + [ch];
        found := true;
      }
    }
    assert s[..|s|] == s;
  }

  /** The output lists exactly the characters that occur once, each once
      (a character occurring once sits at one position), so the "No
      non-repeating character" message is printed exactly when no
      character occurs once, an empty string included. */
  lemma SinglesMeaning(s: string)
    ensures forall c :: c in Singles(s, s) <==> Count(s, c) == 1
    ensures NoRepeats(Singles(s, s))
    ensures Singles(s, s) == [] <==> forall c :: Count(s, c) != 1
    ensures s == [] ==> Singles(s, s) == []
  {
    forall c | Count(s, c) == 1
      ensures c in s
    {
      CountIsMultiplicity(s, c);
    }
    SinglesNoRepeats(s, s);
    if Singles(s, s) != [] {
      assert Singles(s, s)[0] in Singles(s, s);
    }
  }

  /** A character counted once in s appears at most once in any prefix of
      s, so the filter keeps it at most once. */
  lemma {:induction false} SinglesNoRepeats(s: string, t: string)
    requires |t| <= |s| && t == s[..|t|]
    ensures NoRepeats(Singles(s, t))
  {
    if t != [] {
      var init, last := t[..|t| - 1], t[|t| - 1];
      assert init == s[..|init|];
      SinglesNoRepeats(s, init);
      if Count(s, last) == 1 && last in Singles(s, init) {
        OnceInPrefix(s, |init|);
      }
    }
  }

  /** The character at position i, if it occurs once in s, does not occur
      before i. */
  lemma OnceInPrefix(s: string, i: nat)
    requires i < |s| && Count(s, s[i]) == 1
    ensures s[i] !in s[..i]
  {
    var c := s[i];
    assert s == s[..i] + [c] + s[i + 1..];
    assert multiset(s) == multiset(s[..i]) + multiset{c} + multiset(s[i + 1..]);
    CountIsMultiplicity(s, c);
  }

  /** Both loops: the frequency map, the output and found. */
  method NonRepeatingChars(s: string) returns (freq: map<char, nat>, output: string, found: bool)
    ensures forall c :: c in freq <==> c in s
    ensures forall c :: c in freq ==> freq[c] == Count(s, c)
    ensures output == Singles(s, s)
    ensures found <==> exists i :: 0 <= i < |s| && Count(s, s[i]) == 1
  {
    freq := Frequencies(s);
    output, found := PrintSingles(s, freq);
    SinglesMeaning(s);
    if found {
      var c := output[0];
      assert c in Singles(s, s);
      var i :| 0 <= i < |s| && s[i] == c;
    }
  }
}
