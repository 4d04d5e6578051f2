/** Where in a run something holds: the places of the true flags, in order. */
module Places {

  ghost predicate Rise(at: seq<nat>) { forall k, l | 0 <= k < l < |at| :: at[k] < at[l] }

  ghost predicate AllTrue(flags: seq<bool>, at: seq<nat>) {
    forall k | 0 <= k < |at| :: at[k] < |flags| && flags[at[k]]
  }

  ghost predicate NoneLeft(flags: seq<bool>, at: seq<nat>) {
    forall i | 0 <= i < |flags| && flags[i] :: i in at
  }

  /** `at` are the places of the true flags, in order. */
  ghost predicate PlacesOf(flags: seq<bool>, at: seq<nat>) {
    Rise(at) && AllTrue(flags, at) && NoneLeft(flags, at)
  }

  function AndThen(at: seq<nat>, flag: bool, place: nat): seq<nat> { if flag then at + [place] else at }

  lemma {:induction false} StillTrue(flags: seq<bool>, flag: bool, at: seq<nat>)
    requires AllTrue(flags, at)
    ensures AllTrue(flags + [flag], AndThen(at, flag, |flags|))
  {}

  lemma {:induction false} StillRise(flags: seq<bool>, at: seq<nat>)
    requires AllTrue(flags, at) && Rise(at)
    ensures Rise(at + [|flags|])
  {}

  lemma {:induction false} StillNoneLeft(flags: seq<bool>, flag: bool, at: seq<nat>)
    requires NoneLeft(flags, at)
    ensures NoneLeft(flags + [flag], AndThen(at, flag, |flags|))
  {
    var longer, after := flags + [flag], AndThen(at, flag, |flags|);
    forall i | 0 <= i < |longer| && longer[i] ensures i in after {
      if i < |flags| {
        assert flags[i] && i in at;
      } else {
        assert after == at + [|flags|];
      }
    }
  }

  lemma {:induction false} OneMorePlace(flags: seq<bool>, flag: bool, at: seq<nat>)
    requires PlacesOf(flags, at)
    ensures PlacesOf(flags + [flag], AndThen(at, flag, |flags|))
  {
    StillTrue(flags, flag, at);
    StillRise(flags, at);
    StillNoneLeft(flags, flag, at);
  }
}
