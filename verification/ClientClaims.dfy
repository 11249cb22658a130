/** A claim as the client reads it: its id, its node, and the edges it carries. */
module ClientClaims {
  import opened Bytes

  /** An id by its printed form, which tells ids apart. */
  type Id = string

  /** Content a node or an edge addresses by hash, absent when it addresses none. */
  datatype Address = Address(hash: Id, size: nat)

  /** An edge: whether it is an expiry, what it points at, the content it addresses, and its expiry date as written. */
  datatype Edge = Edge(expiry: bool, reference: Id, content: Option<Address>, expiresAfter: Option<string>)

  /** A claim: the content it addresses or carries inline, and its key bounds as written, each possibly absent. */
  datatype Claim = Claim(
    id: Id, content: Option<Address>, inline: Option<Bytes>,
    validFrom: Option<string>, expiresAfter: Option<string>, edges: seq<Edge>)

  function EdgesOf(claims: seq<Claim>): seq<Edge> {
    if claims == [] then [] else claims[0].edges + EdgesOf(claims[1..])
  }

  lemma {:induction false} EdgesOfAppend(a: seq<Claim>, b: seq<Claim>)
    ensures EdgesOf(a + b) == EdgesOf(a) + EdgesOf(b)
  {
    if a == [] {
      assert a + b == b;
    } else {
      assert (a + b)[1..] == a[1..] + b;
      EdgesOfAppend(a[1..], b);
    }
  }

  /** An edge is among the edges of a list exactly when some claim of it carries it. */
  lemma {:induction false} EdgesOfMembers(claims: seq<Claim>, e: Edge)
    ensures e in EdgesOf(claims) <==> exists i :: 0 <= i < |claims| && e in claims[i].edges
  {
    if claims != [] {
      EdgesOfMembers(claims[1..], e);
      assert forall i | 1 <= i < |claims| :: claims[i] == claims[1..][i - 1];
      if e in EdgesOf(claims[1..]) {
        var j :| 0 <= j < |claims[1..]| && e in claims[1..][j].edges;
        assert e in claims[j + 1].edges;
      }
    }
  }
}
