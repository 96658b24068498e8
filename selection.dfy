/** The positions at which a list of flags holds, as the filtering loops of the core
    visit them. */
module Selection {

  /** The positions where `flags` holds, in increasing order. */
  function Positions(flags: seq<bool>): (p: seq<nat>)
    ensures |p| <= |flags|
  {
    if flags == [] then []
    else Positions(flags[..|flags| - 1]) + (if flags[|flags| - 1] then [|flags| - 1] else [])
  }

  /** `Positions` lists every position where the flag holds, each once, in increasing
      order, and no other. */
  lemma {:induction false} PositionsSpec(flags: seq<bool>)
    ensures var p := Positions(flags);
            (forall a :: 0 <= a < |p| ==> p[a] < |flags| && flags[p[a]])
            && (forall a, b :: 0 <= a < b < |p| ==> p[a] < p[b])
            && (forall j :: 0 <= j < |flags| && flags[j] ==> j in p)
  {
    if flags != [] {
      var n := |flags|;
      var init := flags[..n - 1];
      PositionsSpec(init);
      assert forall j :: 0 <= j < n - 1 ==> init[j] == flags[j];
      assert Positions(flags) == Positions(init) + (if flags[n - 1] then [n - 1] else []);
    }
  }
}
