/** Chain names: the main chain, and one chain per container named by its ID. */
module Names {
  import opened Wrappers

  const MAIN := "whalewall"
  const PREFIX := "whalewall-"
  const DOCKER_USER := "DOCKER-USER"
  const FORWARD := "FORWARD"
  const INPUT := "INPUT"
  const OUTPUT := "OUTPUT"

  /** buildChainName */
  function ChainName(id: string): string { PREFIX + id }

  predicate HasPrefix(name: string)
  {
    |name| >= |PREFIX| && name[..|PREFIX|] == PREFIX
  }

  predicate IsHex(c: char) { '0' <= c <= '9' || 'a' <= c <= 'f' }

  /** A full Docker ID: 64 lowercase hexadecimal digits. */
  predicate ValidID(id: string)
  {
    |id| == 64 && forall i :: 0 <= i < |id| ==> IsHex(id[i])
  }

  /** containerIDFromChainName */
  function ContainerID(name: string): Option<string>
  {
    if HasPrefix(name) && ValidID(name[|PREFIX|..]) then Some(name[|PREFIX|..]) else None
  }

  /** Chains whose rules the policy operations may touch. */
  predicate Owned(name: string) { name == MAIN || HasPrefix(name) }

  /** A chain name determines the container, and back. */
  lemma ChainNameDeterminesID(name: string, id: string)
    ensures ContainerID(name) == Some(id) <==> name == ChainName(id) && ValidID(id)
    ensures HasPrefix(ChainName(id)) && ChainName(id) != MAIN && !HasPrefix(MAIN)
  {
    assert ChainName(id)[..|PREFIX|] == PREFIX;
    assert ChainName(id)[|PREFIX|..] == id;
    if HasPrefix(name) { assert name == PREFIX + name[|PREFIX|..]; }
  }

  lemma ChainNameInjective(a: string, b: string)
    requires ChainName(a) == ChainName(b)
    ensures a == b
  {
    assert ChainName(a)[|PREFIX|..] == a;
    assert ChainName(b)[|PREFIX|..] == b;
  }

  /** The hooks Whalewall jumps from are never taken for its own chains. */
  lemma BaseChainsAreForeign()
    ensures !Owned(DOCKER_USER) && !Owned(FORWARD) && !Owned(INPUT) && !Owned(OUTPUT)
  {
    assert DOCKER_USER[0] != PREFIX[0];
    assert FORWARD[0] != PREFIX[0] && INPUT[0] != PREFIX[0] && OUTPUT[0] != PREFIX[0];
  }
}
