/** The claim-recall scorer of the evaluation stub: token multisets and a half-way verdict. */
module Recall {

  import opened Prelude

  /** `[a-z0-9]` after lower-casing (ASCII case mapping only). */
  predicate IsWord(c: char) {
    'a' <= LowerChar(c) <= 'z' || '0' <= c <= '9'
  }

  function Flush(word: string): seq<string> { if word == "" then [] else [word] }

  /** The maximal runs of word characters, `word` being the run read so far. */
  function Words(text: string, word: string): seq<string>
    decreases |text|
  {
    if text == "" then Flush(word)
    else if IsWord(text[0]) then Words(text[1..], word + [LowerChar(text[0])])
    else Flush(word) + Words(text[1..], "")
  }

  /** `Counter(re.findall("[a-z0-9]+", text.lower()))`. */
  function Tokenize(text: string): multiset<string> { multiset(Words(text, "")) }

  function Supported(claim: multiset<string>, context: multiset<string>): nat { |claim * context| }

  /** `sum(min(count, context.get(token, 0)) for token, count in claim.items())`, the items
      taken in the order `keys`. */
  function SumOfMins(claim: multiset<string>, context: multiset<string>, keys: seq<string>): nat {
    if keys == [] then 0
    else
      var k := keys[0];
      (if claim[k] <= context[k] then claim[k] else context[k]) + SumOfMins(claim, context, keys[1..])
  }

  /** The sum of minima is the size of the multiset intersection, in whatever order it is taken. */
  lemma {:induction false} SupportedIsSumOfMins(claim: multiset<string>, context: multiset<string>, keys: seq<string>)
    requires forall k :: k in claim ==> k in keys
    requires forall i, j :: 0 <= i < j < |keys| ==> keys[i] != keys[j]
    ensures SumOfMins(claim, context, keys) == Supported(claim, context)
    decreases |keys|
  {
    if keys == [] {
      assert claim == multiset{};
      assert claim * context == multiset{};
    } else {
      var k, rest := keys[0], claim[keys[0] := 0];
      assert forall x :: x in rest ==> x in claim && x != k;
      assert forall x :: x in keys && x != k ==> x in keys[1..];
      SupportedIsSumOfMins(rest, context, keys[1..]);
      SameElsewhere(claim, rest, context, keys[1..], k);
      assert claim * context == (rest * context)[k := (claim * context)[k]];
      assert (rest * context)[k] == 0;
    }
  }

  lemma {:induction false} SameElsewhere(
    a: multiset<string>, b: multiset<string>, context: multiset<string>, keys: seq<string>, k: string)
    requires b == a[k := 0] && k !in keys
    ensures SumOfMins(a, context, keys) == SumOfMins(b, context, keys)
    decreases |keys|
  {
    if keys != [] {
      assert a[keys[0]] == b[keys[0]];
      SameElsewhere(a, b, context, keys[1..], k);
    }
  }

  function ClaimRecall(claim: multiset<string>, context: multiset<string>): real {
    if |claim| == 0 then 1.0 else Supported(claim, context) as real / |claim| as real
  }

  /** The stub answers "yes" when at least half of the claim is supported. */
  predicate Yes(claim: string, context: string) {
    ClaimRecall(Tokenize(claim), Tokenize(context)) >= 0.5
  }

  lemma {:induction false} WordsJoin(a: string, sep: char, b: string, word: string)
    requires !IsWord(sep)
    ensures Words(a + [sep] + b, word) == Words(a, word) + Words(b, "")
    decreases |a|
  {
    var s := a + [sep] + b;
    if a == "" {
      assert s[1..] == b;
    } else {
      assert s[1..] == a[1..] + [sep] + b;
      if IsWord(a[0]) {
        WordsJoin(a[1..], sep, b, word + [LowerChar(a[0])]);
      } else {
        WordsJoin(a[1..], sep, b, "");
        assert Flush(word) + (Words(a[1..], "") + Words(b, "")) == Flush(word) + Words(a[1..], "") + Words(b, "");
      }
    }
  }

  /** JOINING ADDS: texts joined by a separator have the sum of their tokens. */
  lemma JoinAddsTokens(a: string, sep: char, b: string)
    requires !IsWord(sep)
    ensures Tokenize(a + [sep] + b) == Tokenize(a) + Tokenize(b)
  {
    WordsJoin(a, sep, b, "");
  }

  lemma {:induction false} RunOn(text: string, word: string)
    requires forall i :: 0 <= i < |text| ==> IsWord(text[i])
    ensures Words(text, word) == Flush(word + Lower(text))
    decreases |text|
  {
    if text == "" {
      assert word + "" == word;
    } else {
      RunOn(text[1..], word + [LowerChar(text[0])]);
      assert word + [LowerChar(text[0])] + Lower(text[1..]) == word + Lower(text);
    }
  }

  /** A RUN IS ONE TOKEN: a text of word characters only is itself, lower-cased. Together with
      joining, this determines the tokens of every text. */
  lemma RunIsOneToken(text: string)
    requires text != "" && forall i :: 0 <= i < |text| ==> IsWord(text[i])
    ensures Tokenize(text) == multiset{Lower(text)}
  {
    RunOn(text, "");
    assert "" + Lower(text) == Lower(text);
  }

  /** Lower-case letters and digits only. */
  predicate IsLowerRun(word: string) {
    forall i :: 0 <= i < |word| ==> IsWord(word[i]) && LowerChar(word[i]) == word[i]
  }

  /** Every token is a non-empty run of lower-case letters and digits. */
  lemma {:induction false} TokensAreWords(text: string, word: string)
    requires IsLowerRun(word)
    ensures forall t :: t in Words(text, word) ==> t != "" && IsLowerRun(t)
    decreases |text|
  {
    if text != "" {
      if IsWord(text[0]) {
        TokensAreWords(text[1..], word + [LowerChar(text[0])]);
      } else {
        TokensAreWords(text[1..], "");
      }
    }
  }

  /** Word characters are the ASCII letters and digits. */
  lemma WordCharacters(c: char)
    ensures IsWord(c) <==> 'a' <= c <= 'z' || 'A' <= c <= 'Z' || '0' <= c <= '9'
  {
  }

  /** RECALL IS A SHARE: of a claim with any tokens, that part is supported. */
  lemma RecallIsShare(claim: multiset<string>, context: multiset<string>)
    requires |claim| > 0
    ensures ClaimRecall(claim, context) * |claim| as real == |claim * context| as real
  {
    ShareOf(|claim * context|, |claim|);
  }

  lemma ShareOf(m: nat, n: nat)
    requires n > 0
    ensures m as real / n as real * n as real == m as real
  {
  }

  /** VERDICTS, exactly: "yes" if and only if at least half of the claim's tokens are supported. */
  lemma YesExactly(claim: string, context: string)
    ensures Yes(claim, context) <==> 2 * |Tokenize(claim) * Tokenize(context)| >= |Tokenize(claim)|
  {
    var m, n := |Tokenize(claim) * Tokenize(context)|, |Tokenize(claim)|;
    if n > 0 {
      HalfExactly(m, n);
    } else {
      assert Tokenize(claim) == multiset{};
    }
  }

  lemma HalfExactly(m: nat, n: nat)
    requires n > 0
    ensures m as real / n as real >= 0.5 <==> 2 * m >= n
  {
    var q := m as real / n as real;
    assert q * n as real == m as real;
    if q >= 0.5 {
      assert (q - 0.5) * n as real >= 0.0;
    } else {
      assert (0.5 - q) * n as real > 0.0;
    }
  }

  /** RECALL RANGE AND EXACTNESS: between 0 and 1, and 1 exactly when the claim is contained. */
  lemma RecallExact(claim: multiset<string>, context: multiset<string>)
    ensures 0.0 <= ClaimRecall(claim, context) <= 1.0
    ensures ClaimRecall(claim, context) == 1.0 <==> claim <= context
  {
    var both := claim * context;
    assert both <= claim;
    assert claim == both + (claim - both);
    assert |claim| == |both| + |claim - both|;
    if |claim| > 0 {
      Ratio(|both|, |claim|);
      if |both| == |claim| {
        assert |claim - both| == 0;
        assert claim - both == multiset{};
        assert claim == both;
      }
      if claim <= context {
        assert both == claim;
      }
    } else {
      assert claim == multiset{};
    }
  }

  lemma Ratio(m: nat, n: nat)
    requires m <= n && n > 0
    ensures 0.0 <= m as real / n as real <= 1.0 && (m as real / n as real == 1.0 <==> m == n)
  {
    var q := m as real / n as real;
    assert q * n as real == m as real;
  }

  lemma RatioMonotone(m: nat, m': nat, n: nat)
    requires m <= m' && n > 0
    ensures m as real / n as real <= m' as real / n as real
  {
  }

  /** More context never lowers the recall. */
  lemma RecallMonotone(claim: multiset<string>, context: multiset<string>, more: multiset<string>)
    ensures ClaimRecall(claim, context) <= ClaimRecall(claim, context + more)
  {
    var small, big := claim * context, claim * (context + more);
    assert small <= big;
    assert big == small + (big - small);
    if |claim| > 0 {
      RatioMonotone(|small|, |big|, |claim|);
    }
  }

  /** VERDICTS STAY: appending context after a separator never turns a "yes" into a "no". */
  lemma YesStays(claim: string, context: string, sep: char, more: string)
    requires !IsWord(sep)
    ensures Yes(claim, context) ==> Yes(claim, context + [sep] + more)
  {
    JoinAddsTokens(context, sep, more);
    RecallMonotone(Tokenize(claim), Tokenize(context), Tokenize(more));
  }
}
