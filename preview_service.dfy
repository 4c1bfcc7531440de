/** The in-memory preview registry of the live-preview app: the address of each branch's
    preview, overwritten whenever that branch is previewed again. */
module Previews {
  import opened Wrappers
  import opened Text
  import opened Maps

  /** A branch and the address and port of its preview. */
  datatype BranchPreview = BranchPreview(branchName: string, previewUrl: string, port: int)

  /** The address of a preview on `port`: "http://localhost:", the port in decimal and a
      trailing slash. */
  function PreviewAddress(port: int): (url: string)
    ensures |url| > 18 && url[..17] == "http://localhost:" && url[|url| - 1] == '/'
  {
    "http://localhost:" + IntToString(port) + "/"
  }

  /** The port can be read back from between the host prefix and the trailing slash, so
      distinct ports are previewed at distinct addresses. */
  lemma PreviewAddressReadsBack(p: int, q: int)
    ensures var url := PreviewAddress(p); ParseInt(url[17..|url| - 1]) == p
    ensures PreviewAddress(p) == PreviewAddress(q) <==> p == q
  {
    var url := PreviewAddress(p);
    assert url[17..|url| - 1] == IntToString(p);
    assert PreviewAddress(q)[17..|PreviewAddress(q)| - 1] == IntToString(q);
    ParseIntToString(p);
    IntToStringInjective(p, q);
  }

  /** The preview `addPreview` puts for a branch on `port`. */
  function NewPreview(branchName: string, port: int): BranchPreview {
    BranchPreview(branchName, PreviewAddress(port), port)
  }

  /** The previews after adding the (branch, port) pairs of `adds`, in order, to an empty
      registry: each add puts the branch's preview, replacing any earlier one. */
  function Replay(adds: seq<(string, int)>): (m: map<string, BranchPreview>)
    ensures forall b :: b in m ==> m[b].branchName == b && m[b].previewUrl == PreviewAddress(m[b].port)
  {
    if adds == [] then map[]
    else
      var last := adds[|adds| - 1];
      Replay(adds[..|adds| - 1])[last.0 := NewPreview(last.0, last.1)]
  }

  /** The branches ever added. */
  function Branches(adds: seq<(string, int)>): (bs: set<string>)
    ensures forall i | 0 <= i < |adds| :: adds[i].0 in bs
  {
    if adds == [] then {} else Branches(adds[..|adds| - 1]) + {adds[|adds| - 1].0}
  }

  /** There is a preview for exactly the branches that were added. */
  lemma {:induction false} ReplayKeys(adds: seq<(string, int)>)
    ensures Replay(adds).Keys == Branches(adds)
  {
    if adds != [] {
      var init := adds[..|adds| - 1];
      ReplayKeys(init);
    }
  }

  /** The last add for a branch wins: its preview has the port of that add. */
  lemma {:induction false} ReplayLastWins(adds: seq<(string, int)>, i: int)
    requires 0 <= i < |adds| && IsLatest(adds, adds[i].0, i)
    ensures adds[i].0 in Replay(adds) && Replay(adds)[adds[i].0] == NewPreview(adds[i].0, adds[i].1)
  {
    if i < |adds| - 1 {
      var init := adds[..|adds| - 1];
      assert init[i] == adds[i];
      ReplayLastWins(init, i);
    }
  }

  /** `adds[i]` is the latest add of branch `b`. */
  predicate IsLatest(adds: seq<(string, int)>, b: string, i: int) {
    && 0 <= i < |adds| && adds[i].0 == b
    && forall j | i < j < |adds| :: adds[j].0 != b
  }

  /** Every branch added has a latest add. */
  lemma {:induction false} LatestExists(adds: seq<(string, int)>, b: string)
    requires b in Branches(adds)
    ensures exists i :: IsLatest(adds, b, i)
  {
    var last := |adds| - 1;
    if adds[last].0 == b {
      assert IsLatest(adds, b, last);
    } else {
      var init := adds[..last];
      LatestExists(init, b);
      var i :| IsLatest(init, b, i);
      forall j | i < j < |adds| ensures adds[j].0 != b {
        if j < last {
          assert adds[j] == init[j];
        }
      }
      assert adds[i] == init[i];
      assert IsLatest(adds, b, i);
    }
  }

  class PreviewService {
    /** The preview of each branch. */
    var previews: map<string, BranchPreview>
    /** The (branch, port) pairs added so far, oldest first. */
    ghost var added: seq<(string, int)>

    /** The registry holds exactly what replaying the adds gives. */
    ghost predicate Valid()
      reads this
    {
      previews == Replay(added)
    }

    constructor ()
      ensures Valid() && previews == map[] && added == []
    {
      previews := map[];
      added := [];
    }

    /** `addPreview`: puts the branch's preview at "http://localhost:" + port + "/",
        replacing any earlier preview of that branch; every other branch keeps its own. */
    method AddPreview(branchName: string, port: int)
      requires Valid()
      modifies this
      ensures Valid() && added == old(added) + [(branchName, port)]
      ensures previews == old(previews)[branchName := NewPreview(branchName, port)]
    {
      var url := PreviewAddress(port);
      previews := previews[branchName := BranchPreview(branchName, url, port)];
      added := added + [(branchName, port)];
      assert added[..|added| - 1] == old(added);
    }

    /** `getPreview`: the branch's preview if it was ever added, with that branch's name
        and the port of its latest add. */
    method GetPreview(branchName: string) returns (r: Option<BranchPreview>)
      requires Valid()
      ensures r.Some? <==> branchName in Branches(added)
      ensures r.Some? ==> exists i :: IsLatest(added, branchName, i) && r.value == NewPreview(branchName, added[i].1)
    {
      ReplayKeys(added);
      if branchName in previews {
        r := Some(previews[branchName]);
        LatestExists(added, branchName);
        ghost var i :| IsLatest(added, branchName, i);
        ReplayLastWins(added, i);
      } else {
        r := None;
      }
    }

    /** `getAllPreviews`: one preview per distinct branch added. */
    method GetAllPreviews() returns (all: set<BranchPreview>)
      requires Valid()
      ensures |all| == |Branches(added)|
      ensures forall p :: p in all <==> p.branchName in previews && previews[p.branchName] == p
    {
      all := previews.Values;
      ReplayKeys(added);
      KeyedValuesCount(previews, (p: BranchPreview) => p.branchName);
    }
  }
}
