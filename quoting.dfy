/**
 * Reading double-quoted fields back out of a command line: the text before
 * the first double quote, and what follows it.
 */
module Quoting {
  import opened Wrappers

  const Quote: char := '"'

  /** `s` holds no double quote. */
  predicate Unquoted(s: string)
  {
    Quote !in s
  }

  /** Index of the first double quote in `s`, or |s| when there is none. */
  function FirstQuote(s: string): (i: nat)
    ensures i <= |s|
    ensures Unquoted(s[..i])
    ensures i < |s| ==> s[i] == Quote
  {
    if s == [] || s[0] == Quote then 0
    else
      assert s[..1 + FirstQuote(s[1..])] == [s[0]] + s[1..][..FirstQuote(s[1..])];
      1 + FirstQuote(s[1..])
  }

  /** The quote-free text in front of the first quote, when all that follows it is exactly `tail`. */
  function Field(s: string, tail: string): Option<string>
  {
    var i := FirstQuote(s);
    if s[i..] == tail then Some(s[..i]) else None
  }

  /** The user and group of a group command after its prefix: group, `sep`, user, `tail`. */
  function GroupArguments(s: string, sep: string, tail: string): Option<(string, string)>
  {
    var i := FirstQuote(s);
    if sep <= s[i..] then
      match Field(s[i + |sep|..], tail)
      case Some(u) => Some((u, s[..i]))
      case None => None
    else None
  }

  /** The first quote of a quote-free text followed by a quoted tail is where the tail starts. */
  lemma {:induction false} FirstQuoteAfter(a: string, b: string)
    requires Unquoted(a) && b != [] && b[0] == Quote
    ensures FirstQuote(a + b) == |a|
  {
    if a != [] {
      assert (a + b)[1..] == a[1..] + b;
      assert a[0] in a;
      assert forall c :: c in a[1..] ==> c in a;
      FirstQuoteAfter(a[1..], b);
    }
  }

  /** Field reads back a quote-free text in front of its tail. */
  lemma FieldOf(a: string, tail: string)
    requires Unquoted(a) && tail != [] && tail[0] == Quote
    ensures Field(a + tail, tail) == Some(a)
  {
    FirstQuoteAfter(a, tail);
    assert (a + tail)[|a|..] == tail;
    assert (a + tail)[..|a|] == a;
  }

  /** What Field accepts is a quote-free text followed by the tail. */
  lemma FieldInverse(s: string, tail: string, a: string)
    requires Field(s, tail) == Some(a)
    ensures s == a + tail && Unquoted(a)
  {
    JoinAt(s, FirstQuote(s));
  }

  /** GroupArguments reads back a quote-free group and user. */
  lemma GroupArgumentsOf(u: string, g: string, sep: string, tail: string)
    requires Unquoted(u) && Unquoted(g) && sep != [] && sep[0] == Quote && tail != [] && tail[0] == Quote
    ensures GroupArguments(g + sep + u + tail, sep, tail) == Some((u, g))
  {
    var s := g + (sep + (u + tail));
    Concat4(g, sep, u, tail, s);
    FirstQuoteAfter(g, sep + (u + tail));
    ThreeParts(g, sep, u + tail);
    FieldOf(u, tail);
  }

  /** What GroupArguments accepts is group, separator, user and tail, the two fields quote-free. */
  lemma GroupArgumentsInverse(s: string, sep: string, tail: string, u: string, g: string)
    requires GroupArguments(s, sep, tail) == Some((u, g))
    ensures s == g + sep + u + tail && Unquoted(u) && Unquoted(g)
  {
    var i := FirstQuote(s);
    var rest := s[i + |sep|..];
    FieldInverse(rest, tail, u);
    RejoinAt(s, i, sep);
    Concat4(g, sep, u, tail, s);
  }

  // ---------------------------------------------------------------------
  // Stock facts about slicing and concatenating strings. Each holds without
  // a proof; they are separate lemmas so that the proofs above can state
  // the one step they need without the solver searching for it.

  lemma PrefixThenRest(p: string, s: string)
    requires p <= s
    ensures s == p + s[|p|..]
  {
  }

  lemma RestAfterPrefix(p: string, x: string)
    ensures p <= p + x && (p + x)[|p|..] == x
  {
  }

  lemma JoinAt(s: string, i: nat)
    requires i <= |s|
    ensures s == s[..i] + s[i..]
  {
  }

  lemma Concat4(a: string, b: string, c: string, d: string, s: string)
    requires s == a + (b + (c + d))
    ensures s == a + b + c + d
  {
  }

  lemma AppendAssoc(p: string, a: string, b: string, s: string)
    requires s == p + (a + b)
    ensures s == p + a + b
  {
  }

  lemma ThreeParts(a: string, b: string, c: string)
    ensures (a + (b + c))[..|a|] == a
    ensures (a + (b + c))[|a|..] == b + c
    ensures b <= (a + (b + c))[|a|..]
    ensures (a + (b + c))[|a| + |b|..] == c
  {
  }

  lemma RejoinAt(s: string, i: nat, sep: string)
    requires i <= |s| && sep <= s[i..]
    ensures s == s[..i] + (sep + s[i + |sep|..])
  {
    assert s[i..] == sep + s[i + |sep|..];
    JoinAt(s, i);
  }
}
