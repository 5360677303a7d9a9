/** The server side of a peer: the vertex map and the lists it fills before handing them to the scanner
    (networking.cpp:99-258). */
module ServerSide {
  import opened Vertices
  import opened Protocol
  import opened ThreadSafe

  class Server {
    const c: Config
    const vertexMap: UnorderedMap<Key, Vertex>
    var tempList: seq<Vertex>
    var tempRequestList: seq<Request>

    constructor (c: Config)
      ensures this.c == c && fresh(vertexMap) && vertexMap.content == map[] && tempList == [] && tempRequestList == []
    {
      this.c := c;
      vertexMap := new UnorderedMap();
      tempList, tempRequestList := [], [];
    }

    /** The state of a peer, with this server's part of it. */
    ghost function View(p: Peer): Peer
      reads this, vertexMap
    {
      p.(vmap := vertexMap.content, temp := tempList, tempRequests := tempRequestList)
    }

    /** One received packet: admit round 1 vertices and those with a quorum of references, unless already known. */
    method Receive(vertices: seq<Vertex>, ghost p: Peer)
      modifies this, vertexMap
      ensures View(p) == AdmitAll(c, old(View(p)), vertices)
    {
      hide KeyOf;
      var majority := Quorum(c);
      var i := 0;
      while i < |vertices|
        invariant 0 <= i <= |vertices|
        invariant AdmitAll(c, View(p), vertices[i..]) == AdmitAll(c, old(View(p)), vertices)
      {
        var v := vertices[i];
        ghost var before := View(p);
        if |v.refs| >= majority || v.round == 1 {
          var known := vertexMap.Find(KeyOf(c, v));
          if known == None {
            tempList := [v] + tempList;
            vertexMap.Insert(KeyOf(c, v), v);
          }
        }
        assert View(p) == Admit(c, before, v);
        assert vertices[i..][1..] == vertices[i + 1..];
        i := i + 1;
      }
      assert vertices[i..] == [];
    }

    /** One request message: answerable if the vertex is known. */
    method ProcessRequest(vertexHash: Key, peerId: nat, ghost p: Peer)
      modifies this
      ensures View(p) == LookUp(old(View(p)), vertexHash, peerId)
    {
      var requested := vertexMap.Find(vertexHash);
      if requested.Some? {
        tempRequestList := [Request(peerId, requested.value)] + tempRequestList;
      }
    }
  }
}
