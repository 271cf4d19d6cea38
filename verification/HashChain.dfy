/** Row hash chains, shared by the sealed CSV ledgers and the append-only JSONL logs. */
module HashChain {
  // The digest function is a parameter of type `string -> string`.
  import opened Basics

  type Sha = string -> string

  const DIGEST_LENGTH := 64
  const GENESIS := "0000000000000000000000000000000000000000000000000000000000000000"

  /** One chained row: its canonical text and the two stored hashes. */
  datatype Link = Link(text: string, prev: string, hash: string)

  function LinkInput(prev: string, text: string): string {
    prev + "\n" + text
  }

  /** The hash after a sequence of texts. */
  function ChainHash(sha: Sha, texts: seq<string>): string {
    if texts == [] then GENESIS
    else sha(LinkInput(ChainHash(sha, texts[..|texts| - 1]), texts[|texts| - 1]))
  }

  function LastHash(links: seq<Link>): string {
    if links == [] then GENESIS else links[|links| - 1].hash
  }

  /** Every link names the hash before it and carries the hash of its own input. */
  predicate Chained(sha: Sha, links: seq<Link>) {
    forall i | 0 <= i < |links| ::
      && links[i].prev == LastHash(links[..i])
      && links[i].hash == sha(LinkInput(links[i].prev, links[i].text))
  }

  function NextLink(sha: Sha, prev: string, text: string): Link {
    Link(text, prev, sha(LinkInput(prev, text)))
  }

  function Texts(links: seq<Link>): (t: seq<string>)
    ensures |t| == |links|
  {
    seq(|links|, i requires 0 <= i < |links| => links[i].text)
  }

  lemma ChainedSnoc(sha: Sha, links: seq<Link>, text: string)
    requires Chained(sha, links)
    ensures Chained(sha, links + [NextLink(sha, LastHash(links), text)])
  {
    var next := links + [NextLink(sha, LastHash(links), text)];
    forall i | 0 <= i <= |links| ensures next[..i] == links[..i] {}
    assert links[..|links|] == links;
  }

  /** A verified chain ends in the hash of its texts: the final hash stands for the whole sequence. */
  lemma {:induction false} FinalHashIsChainHash(sha: Sha, links: seq<Link>)
    requires Chained(sha, links)
    ensures LastHash(links) == ChainHash(sha, Texts(links))
  {
    if links != [] {
      var n := |links| - 1;
      forall i | 0 <= i < n ensures links[..n][..i] == links[..i] {}
      FinalHashIsChainHash(sha, links[..n]);
      assert Texts(links)[..n] == Texts(links[..n]);
    }
  }

  // Tamper evidence. Two verified chains with the same number of rows and the same final hash
  // hold the same texts, unless they exhibit two different inputs with one digest.
  lemma {:induction false} TamperEvidence(sha: Sha, a: seq<Link>, b: seq<Link>) returns (x: string, y: string)
    requires forall s :: |sha(s)| == DIGEST_LENGTH
    requires Chained(sha, a) && Chained(sha, b) && |a| == |b| && LastHash(a) == LastHash(b)
    ensures Texts(a) == Texts(b) || (x != y && sha(x) == sha(y))
  {
    FinalHashIsChainHash(sha, a);
    FinalHashIsChainHash(sha, b);
    x, y := ChainCollision(sha, Texts(a), Texts(b));
  }

  lemma {:induction false} ChainCollision(sha: Sha, s: seq<string>, t: seq<string>) returns (x: string, y: string)
    requires forall s :: |sha(s)| == DIGEST_LENGTH
    requires |s| == |t| && ChainHash(sha, s) == ChainHash(sha, t)
    ensures s == t || (x != y && sha(x) == sha(y))
  {
    x, y := "", "";
    if s != [] {
      var n := |s| - 1;
      var p, q := ChainHash(sha, s[..n]), ChainHash(sha, t[..n]);
      x, y := LinkInput(p, s[n]), LinkInput(q, t[n]);
      if x == y {
        LinkInputInjective(p, s[n], q, t[n]);
        x, y := ChainCollision(sha, s[..n], t[..n]);
        assert s == s[..n] + [s[n]] && t == t[..n] + [t[n]];
      }
    }
  }

  lemma LinkInputInjective(p: string, s: string, q: string, t: string)
    requires |p| == |q| && LinkInput(p, s) == LinkInput(q, t)
    ensures p == q && s == t
  {
    assert p == LinkInput(p, s)[..|p|] && q == LinkInput(q, t)[..|q|];
    assert s == LinkInput(p, s)[|p| + 1..] && t == LinkInput(q, t)[|q| + 1..];
  }

  /** The verification loop shared by both file formats. */
  method VerifyLinks(sha: Sha, links: seq<Link>) returns (r: Result<(nat, string)>)
    ensures r.Success? <==> Chained(sha, links)
    ensures r.Success? ==> r.value == (|links|, LastHash(links))
  {
    var previous, count := GENESIS, 0;
    for i := 0 to |links|
      invariant count == i && previous == LastHash(links[..i])
      invariant forall j | 0 <= j < i ::
                  links[j].prev == LastHash(links[..j]) && links[j].hash == sha(LinkInput(links[j].prev, links[j].text))
    {
      if links[i].prev != previous { return Failure("previous-hash chain is broken"); }
      var expected := sha(LinkInput(previous, links[i].text));
      if links[i].hash != expected { return Failure("row hash is invalid"); }
      previous, count := expected, count + 1;
    }
    assert links[..|links|] == links;
    return Success((count, previous));
  }
}
