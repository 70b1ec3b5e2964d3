/**
 * The channel extraction of the socket handler: the handshake query string is
 * rewritten by `query.replaceAll(".*channelId=([^&]+).*", "$1")`.
 *
 * The model follows how a backtracking matcher runs that pattern, for every
 * query. A match attempt starting at `s` lets `.*` run to the first line
 * terminator (`.` does not match one), then backs off until the literal
 * `channelId=` followed by at least one non-`&` character fits; `[^&]+`
 * then takes the longest run of non-`&` characters (line terminators
 * included) and the trailing `.*` runs to the next line terminator. The
 * matched text is replaced by the captured run and the search resumes after
 * the match; text no attempt can match is copied unchanged.
 */
module ChannelQuery {
  import opened Entity

  const Key: string := "channelId="

  /** The characters that `.` does not match. */
  predicate IsLineTerminator(ch: char) {
    ch == '\n' || ch == '\r' || ch == '\U{85}' || ch == '\U{2028}' || ch == '\U{2029}'
  }

  predicate SingleLine(q: string) {
    forall k :: 0 <= k < |q| ==> !IsLineTerminator(q[k])
  }

  /** Where a run of `.` starting at `i` stops: the first line terminator at or after `i`, or the end. */
  function DotRunEnd(q: string, i: nat): (j: nat)
    requires i <= |q|
    ensures i <= j <= |q|
    ensures forall k :: i <= k < j ==> !IsLineTerminator(q[k])
    ensures j < |q| ==> IsLineTerminator(q[j])
    decreases |q| - i
  {
    if i == |q| || IsLineTerminator(q[i]) then i else DotRunEnd(q, i + 1)
  }

  /** Where a run of `[^&]` starting at `i` stops: the first `&` at or after `i`, or the end. */
  function ValueEnd(q: string, i: nat): (j: nat)
    requires i <= |q|
    ensures i <= j <= |q|
    ensures forall k :: i <= k < j ==> q[k] != '&'
    ensures j < |q| ==> q[j] == '&'
    decreases |q| - i
  {
    if i == |q| || q[i] == '&' then i else ValueEnd(q, i + 1)
  }

  /** `channelId=` occurs at `p` and is followed by at least one non-`&` character. */
  predicate KeyAt(q: string, p: nat) {
    p + |Key| < |q| && q[p..p + |Key|] == Key && q[p + |Key|] != '&'
  }

  /** The largest `p` in `[lo, hi]` at which the key can match: where greedy `.*` stops backing off. */
  function LastKey(q: string, lo: nat, hi: nat): (r: Option<nat>)
    requires lo <= hi
    ensures r.Some? ==> lo <= r.value <= hi && KeyAt(q, r.value)
    ensures r.Some? ==> forall p: nat :: r.value < p <= hi ==> !KeyAt(q, p)
    ensures r.None? ==> forall p: nat :: lo <= p <= hi ==> !KeyAt(q, p)
    decreases hi - lo
  {
    if KeyAt(q, hi) then Some(hi)
    else if hi == lo then None
    else LastKey(q, lo, hi - 1)
  }

  /** The output of `replaceAll` for the part of `q` from position `s` on. */
  function ReplaceFrom(q: string, s: nat): string
    requires s <= |q|
    decreases |q| - s
  {
    if s == |q| then []
    else
      var e := DotRunEnd(q, s);
      match LastKey(q, s, e)
      case Some(p) =>
        var v := ValueEnd(q, p + |Key|);
        q[p + |Key|..v] + ReplaceFrom(q, DotRunEnd(q, v))
      case None =>
        if e == |q| then q[s..] else q[s..e + 1] + ReplaceFrom(q, e + 1)
  }

  /**
   * The channel a connection is bound to, from the query of its handshake
   * URI. A URI without a query (`getQuery()` is null) throws: `None`.
   */
  function ExtractChannelId(query: Option<string>): (r: Option<string>)
    ensures r.Some? <==> query.Some?
    ensures query.Some? && SingleLine(query.value) && LastKey(query.value, 0, |query.value|).None?
            ==> r.value == query.value
  {
    match query
    case None => None
    case Some(q) => Some(ReplaceFrom(q, 0))
  }

  /**
   * On a query without line terminators whose rightmost usable `channelId=`
   * is at `p`, the result is the longest `&`-free run after that key: it is
   * non-empty, holds no `&` and ends at an `&` or at the end of the query.
   */
  lemma {:induction false} ExtractRightmostKey(q: string, p: nat)
    requires SingleLine(q)
    requires KeyAt(q, p)
    requires forall p': nat :: p < p' <= |q| ==> !KeyAt(q, p')
    ensures ExtractChannelId(Some(q)) == Some(q[p + |Key|..ValueEnd(q, p + |Key|)])
    ensures var v := ExtractChannelId(Some(q)).value;
            && |v| > 0
            && (forall k :: 0 <= k < |v| ==> v[k] != '&')
            && q[p + |Key|..p + |Key| + |v|] == v
            && (p + |Key| + |v| == |q| || q[p + |Key| + |v|] == '&')
  {
    assert |q| > 0;
    assert DotRunEnd(q, 0) == |q|;
    assert LastKey(q, 0, |q|) == Some(p);
    var v := ValueEnd(q, p + |Key|);
    assert DotRunEnd(q, v) == |q|;
    assert ReplaceFrom(q, |q|) == [];
    assert ReplaceFrom(q, 0) == q[p + |Key|..v] + ReplaceFrom(q, |q|);
    assert q[p + |Key|..v] + [] == q[p + |Key|..v];
    assert ExtractChannelId(Some(q)) == Some(q[p + |Key|..v]);
  }

  /**
   * On a query without line terminators in which no `channelId=` is
   * followed by a non-`&` character, the query is returned unchanged. This is
   * the second postcondition of `ExtractChannelId` stated with `KeyAt` alone
   * rather than through the search function `LastKey`.
   */
  lemma {:induction false} ExtractWithoutKey(q: string)
    requires SingleLine(q)
    requires forall p: nat :: p <= |q| ==> !KeyAt(q, p)
    ensures ExtractChannelId(Some(q)) == Some(q)
  {
    if |q| > 0 {
      assert DotRunEnd(q, 0) == |q|;
      assert LastKey(q, 0, |q|).None?;
    }
  }

  /** Every usable key starts with the letter `c`; a cheap way to rule positions out. */
  lemma KeyAtStartsWithC(q: string, p: nat)
    requires KeyAt(q, p)
    ensures q[p] == 'c'
  {
    assert q[p..p + |Key|][0] == q[p];
  }

  lemma SingleLineAppend(a: string, b: string)
    requires SingleLine(a) && SingleLine(b)
    ensures SingleLine(a + b)
  {
    forall k | 0 <= k < |a + b| ensures !IsLineTerminator((a + b)[k]) {
      if k >= |a| {
        assert (a + b)[k] == b[k - |a|];
      }
    }
  }

  /** The key is found as a substring, not as a whole parameter name. */
  lemma SubstringKey()
    ensures ExtractChannelId(Some("xchannelId=a")) == Some("a")
  {
    var q := "xchannelId=a";
    assert q[1..1 + |Key|] == Key;
    ExtractRightmostKey(q, 1);
    assert ValueEnd(q, 11) == 12;
    assert q[11..12] == "a";
  }

  /** A key followed by `&` is not a match: the whole query comes back. */
  lemma EmptyValueIsNotAMatch()
    ensures ExtractChannelId(Some("channelId=&room=1")) == Some("channelId=&room=1")
  {
    var q := "channelId=&room=1";
    forall p: nat | p <= |q| ensures !KeyAt(q, p) {
      if KeyAt(q, p) {
        KeyAtStartsWithC(q, p);
        assert false;
      }
    }
    ExtractWithoutKey(q);
  }

  /** With two keys, the rightmost one wins. */
  lemma RightmostKeyWins()
    ensures ExtractChannelId(Some("channelId=a&channelId=b")) == Some("b")
  {
    var q := "channelId=a&channelId=b";
    assert q == Key + "a&" + Key + "b";
    assert SingleLine(Key) && SingleLine("a&") && SingleLine("b");
    SingleLineAppend(Key, "a&");
    SingleLineAppend(Key + "a&", Key);
    SingleLineAppend(Key + "a&" + Key, "b");
    assert q[12..12 + |Key|] == Key;
    ExtractRightmostKey(q, 12);
    assert ValueEnd(q, 22) == 23;
    assert q[22..23] == "b";
  }
}
