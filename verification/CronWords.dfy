/** Splitting an expression at white space, as strings.Fields does. */
module CronWords {

  /** unicode.IsSpace. */
  predicate Space(c: char) {
    var n := c as int;
    || 9 <= n <= 13 || n == 32 || n == 0x85 || n == 0xA0 || n == 0x1680 || 0x2000 <= n <= 0x200A
    || n == 0x2028 || n == 0x2029 || n == 0x202F || n == 0x205F || n == 0x3000
  }

  predicate All(s: string, space: bool) {
    forall i :: 0 <= i < |s| ==> Space(s[i]) == space
  }

  /** The length of the longest run of spaces, or of other characters, that s starts with. */
  function Lead(s: string, space: bool): (n: nat)
    ensures n <= |s| && All(s[..n], space) && (n < |s| ==> Space(s[n]) != space)
  {
    if s == "" || Space(s[0]) != space then 0
    else
      var n := 1 + Lead(s[1..], space);
      assert s[..n] == [s[0]] + s[1..][..n - 1];
      n
  }

  function Words(s: string): seq<string>
    decreases |s|
  {
    var rest := s[Lead(s, true)..];
    var n := Lead(rest, false);
    if rest == "" then [] else [rest[..n]] + Words(rest[n..])
  }

  /** s is the words with spaces between them: at least one between two words, any
      number before the first and after the last. */
  ghost predicate Spelled(s: string, words: seq<string>)
    decreases |words|
  {
    if words == [] then All(s, true)
    else exists gap: string, rest: string ::
           Parted(s, gap, words[0], rest) && Spelled(rest, words[1..])
  }

  predicate Parted(s: string, gap: string, word: string, rest: string) {
    && s == gap + word + rest && All(gap, true) && word != "" && All(word, false)
    && (rest == "" || Space(rest[0]))
  }

  lemma LeadIs(s: string, space: bool, a: string, b: string)
    requires s == a + b && All(a, space) && (b == "" || Space(b[0]) != space)
    ensures Lead(s, space) == |a| && s[|a|..] == b && s[..|a|] == a
  {
    var n := Lead(s, space);
    assert forall i :: 0 <= i < n ==> s[..n][i] == s[i];
    assert forall i :: 0 <= i < n ==> Space(s[i]) == space;
    assert forall i :: 0 <= i < |a| ==> Space(s[i]) == space;
    assert b != "" ==> s[|a|] == b[0];
  }

  lemma PartedWords(s: string, gap: string, word: string, rest: string)
    requires Parted(s, gap, word, rest)
    ensures Words(s) == [word] + Words(rest)
  {
    assert s == gap + (word + rest);
    LeadIs(s, true, gap, word + rest);
    LeadIs(word + rest, false, word, rest);
  }

  lemma FirstWord(s: string, words: seq<string>) returns (gap: string, rest: string)
    requires words != [] && Spelled(s, words)
    ensures Parted(s, gap, words[0], rest) && Spelled(rest, words[1..])
  {
    gap, rest :| Parted(s, gap, words[0], rest) && Spelled(rest, words[1..]);
  }

  lemma OneMoreWord(s: string, gap: string, word: string, rest: string, words: seq<string>)
    requires Parted(s, gap, word, rest) && Spelled(rest, words)
    ensures Spelled(s, [word] + words)
  {
    var all := [word] + words;
    assert all[1..] == words;
    assert Parted(s, gap, all[0], rest) && Spelled(rest, all[1..]);
  }

  lemma {:induction false} SpelledWords(s: string, words: seq<string>)
    requires Spelled(s, words)
    ensures Words(s) == words
    decreases |words|
  {
    if words == [] {
      assert s == s + "";
      LeadIs(s, true, s, "");
    } else {
      var gap, rest := FirstWord(s, words);
      PartedWords(s, gap, words[0], rest);
      SpelledWords(rest, words[1..]);
    }
  }

  lemma {:induction false} WordsSpell(s: string)
    ensures Spelled(s, Words(s))
    decreases |s|
  {
    var n := Lead(s, true);
    var rest := s[n..];
    var m := Lead(rest, false);
    if rest != "" {
      assert Parted(s, s[..n], rest[..m], rest[m..]);
      WordsSpell(rest[m..]);
      OneMoreWord(s, s[..n], rest[..m], rest[m..], Words(rest[m..]));
    }
  }

  /** The splitter yields exactly the words the text spells. */
  lemma WordsIff(s: string, words: seq<string>)
    ensures Words(s) == words <==> Spelled(s, words)
  {
    WordsSpell(s);
    if Spelled(s, words) { SpelledWords(s, words); }
  }
}
