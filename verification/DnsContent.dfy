/** CNAME targets: the content written for a tunnel and the two comparisons the
    program makes on live contents (syncer.go, cloudflareManager/tunnel.go). */
module DnsContent {
  import opened Text

  const TUNNEL_SUFFIX: string := ".cfargotunnel.com"

  /** Record name to record content. */
  type Contents = map<string, string>

  function ContentOf(tunnel: string): string {
    tunnel + TUNNEL_SUFFIX
  }

  /** Equal up to one trailing dot on the live side; case matters. */
  predicate Matches(live: string, content: string) {
    live == content || live == content + "."
  }

  function TrimDot(s: string): string {
    if s != [] && s[|s| - 1] == '.' then s[..|s| - 1] else s
  }

  /** normalizeCNAMEContent: lower case, one trailing dot dropped. */
  function Normalize(s: string): string {
    TrimDot(Lower(s))
  }

  /** A content of this tunnel in any spelling. */
  predicate Ours(live: string, content: string) {
    Normalize(live) == Normalize(content)
  }

  lemma ContentEnds(tunnel: string)
    ensures var c := ContentOf(tunnel); c[|c| - 1] == 'm' && c[..|c| - |TUNNEL_SUFFIX|] == tunnel
  {
  }

  /** The strict comparison never accepts what the lenient one calls foreign. */
  lemma MatchesIsOurs(live: string, tunnel: string)
    requires Matches(live, ContentOf(tunnel))
    ensures Ours(live, ContentOf(tunnel))
  {
    var c := ContentOf(tunnel);
    ContentEnds(tunnel);
    LowerConcat(c, ".");
    assert Lower(c)[|c| - 1] == 'm';
    assert Lower(".") == ".";
    assert TrimDot(Lower(c) + ".") == Lower(c);
  }

  /** A trailing dot cannot disguise one tunnel's content as another's. */
  lemma SameContentSameTunnel(live: string, t1: string, t2: string)
    requires Matches(live, ContentOf(t1)) && Matches(live, ContentOf(t2))
    ensures t1 == t2
  {
    ContentEnds(t1);
    ContentEnds(t2);
    assert ContentOf(t1) == TrimDot(live) by {
      assert (ContentOf(t1) + ".")[..|ContentOf(t1)|] == ContentOf(t1);
    }
    assert ContentOf(t2) == TrimDot(live) by {
      assert (ContentOf(t2) + ".")[..|ContentOf(t2)|] == ContentOf(t2);
    }
  }

  /** A live content is this tunnel's exactly when it is the tunnel's name up to case, with
      or without one final dot. */
  lemma OursIff(live: string, tunnel: string)
    ensures Ours(live, ContentOf(tunnel))
            <==> Lower(live) == Lower(ContentOf(tunnel)) || Lower(live) == Lower(ContentOf(tunnel)) + "."
  {
    var c := ContentOf(tunnel);
    ContentEnds(tunnel);
    var l, m := Lower(live), Lower(c);
    assert m[|m| - 1] == 'm';
    assert TrimDot(m) == m;
    if l != [] && l[|l| - 1] == '.' {
      assert l == TrimDot(l) + ".";
    }
    assert TrimDot(m + ".") == m;
  }
}
