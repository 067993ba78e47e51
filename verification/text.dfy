/** The single-quote sanitising applied to completion outputs and chat questions. */
module Text {

  const Quote: char := '\''

  /** A string with no single-quote character in it. */
  predicate QuoteFree(s: string) {
    Quote !in s
  }

  /** Python's `s.replace("'", "")`: every single quote is dropped, every other
      character is kept, in order. */
  function StripQuotes(s: string): (r: string)
    ensures QuoteFree(r)
    ensures |r| <= |s|
    ensures forall c :: c != Quote ==> multiset(r)[c] == multiset(s)[c]
    decreases |s|
  {
    if s == [] then []
    else
      assert s == [s[0]] + s[1..];
      if s[0] == Quote then StripQuotes(s[1..]) else [s[0]] + StripQuotes(s[1..])
  }

  /** The strings left unchanged by stripping are exactly the quote-free ones. */
  lemma {:induction false} StripQuotesFixedPoints(s: string)
    ensures StripQuotes(s) == s <==> QuoteFree(s)
    decreases |s|
  {
    if s != [] {
      StripQuotesFixedPoints(s[1..]);
    }
  }

  /** Stripping twice is the same as stripping once. */
  lemma StripQuotesIdempotent(s: string)
    ensures StripQuotes(StripQuotes(s)) == StripQuotes(s)
  {
  }

  /** Stripping works character by character: it distributes over concatenation,
      so the kept characters stay in their original order. */
  lemma {:induction false} StripQuotesAppend(a: string, b: string)
    ensures StripQuotes(a + b) == StripQuotes(a) + StripQuotes(b)
    decreases |a|
  {
    if a == [] {
      assert a + b == b;
    } else {
      assert (a + b)[0] == a[0];
      assert (a + b)[1..] == a[1..] + b;
      StripQuotesAppend(a[1..], b);
    }
  }
}
