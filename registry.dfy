/** Lookups in the read-only registry of exchange servers. */
module Registry {
  import opened Types

  /** No two registry records share an id; the registry is built that way. */
  ghost predicate UniqueIds(servers: seq<ExchangeServer>) {
    forall a, b :: 0 <= a < b < |servers| ==> servers[a].id != servers[b].id
  }

  /** Some record carries this id (Array.prototype.some on the id). */
  predicate HasId(servers: seq<ExchangeServer>, id: string) {
    exists k :: 0 <= k < |servers| && servers[k].id == id
  }

  /** Array.prototype.find on the id: the first record carrying it, if any. */
  function FindById(servers: seq<ExchangeServer>, id: string): (r: Option<ExchangeServer>)
    ensures r.Some? <==> HasId(servers, id)
    ensures r.Some? ==> r.value.id == id && r.value in servers
    ensures r.Some? && UniqueIds(servers) ==> forall k :: 0 <= k < |servers| && servers[k].id == id ==> servers[k] == r.value
    decreases |servers|
  {
    if servers == [] then None
    else if servers[0].id == id then Some(servers[0])
    else
      var r := FindById(servers[1..], id);
      assert HasId(servers, id) ==> HasId(servers[1..], id) by {
        if HasId(servers, id) {
          var k :| 0 <= k < |servers| && servers[k].id == id;
          assert servers[1..][k - 1].id == id;
        }
      }
      assert HasId(servers[1..], id) ==> HasId(servers, id) by {
        if HasId(servers[1..], id) {
          var k :| 0 <= k < |servers| - 1 && servers[1..][k].id == id;
          assert servers[k + 1].id == id;
        }
      }
      r
  }

  /** The record found is the first one carrying the id. */
  lemma {:induction false} FindByIdFirst(servers: seq<ExchangeServer>, id: string) returns (k: nat)
    requires HasId(servers, id)
    ensures k < |servers| && FindById(servers, id) == Some(servers[k])
    ensures forall m :: 0 <= m < k ==> servers[m].id != id
    decreases |servers|
  {
    if servers[0].id == id {
      k := 0;
    } else {
      var j := FindByIdFirst(servers[1..], id);
      k := j + 1;
      assert forall m :: 1 <= m < k ==> servers[m] == servers[1..][m - 1];
    }
  }
}
