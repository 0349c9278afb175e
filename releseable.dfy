// Releseable: the release state machine shared by GPU-side objects. The
// object's own destroy() is an override the model cannot see; the model counts
// how many times it is called.
module Releseables {
  /** Releseable::ReleaseMode, in declaration order. */
  datatype ReleaseMode = AtFirstOpportunity | ByOwner

  class Releseable {
    /** m_release_mode. */
    var mode: ReleaseMode
    /** m_is_released. */
    var released: bool
    /** How many times destroy() has been called. */
    var destroyed: nat

    /** A new object waits for its owner and is not released. */
    constructor ()
      ensures mode == ByOwner && !released && destroyed == 0
    {
      mode, released, destroyed := ByOwner, false, 0;
    }

    /** is_released(). */
    function IsReleased(): (r: bool)
      reads this
      ensures r <==> released
    {
      released
    }

    /** set_release_mode(mode): only the mode changes. */
    method SetReleaseMode(m: ReleaseMode)
      modifies this`mode
      ensures mode == m
    {
      mode := m;
    }

    /** safe_release(): destroy once, and only when released at the first
        opportunity. */
    method SafeRelease()
      modifies this`released, this`destroyed
      ensures Effective(old(released), mode) ==> released && destroyed == old(destroyed) + 1
      ensures !Effective(old(released), mode) ==> released == old(released) && destroyed == old(destroyed)
    {
      if !released && mode == AtFirstOpportunity {
        destroyed := destroyed + 1;
        released := true;
      }
    }

    /** force_release(): destroy and mark released, whatever the state, so a
        second call destroys again. */
    method ForceRelease()
      modifies this`released, this`destroyed
      ensures released && destroyed == old(destroyed) + 1
    {
      destroyed := destroyed + 1;
      released := true;
    }
  }

  /** Whether safe_release acts in a state. */
  predicate Effective(released: bool, mode: ReleaseMode)
  {
    !released && mode == AtFirstOpportunity
  }

  /** A second safe_release does nothing: the object is destroyed at most once
      by any number of safe releases. */
  method SafeReleaseTwice(r: Releseable)
    modifies r`released, r`destroyed
    ensures r.released == (old(r.released) || r.mode == AtFirstOpportunity)
    ensures r.destroyed == old(r.destroyed) + (if Effective(old(r.released), r.mode) then 1 else 0)
  {
    r.SafeRelease();
    r.SafeRelease();
  }

  /** An object left to its owner survives safe_release until forced. */
  method OwnerKeepsIt() returns (destroyed: nat, released: bool)
    ensures destroyed == 1 && released
  {
    var r := new Releseable();
    r.SafeRelease();
    assert r.destroyed == 0 && !r.released;
    r.ForceRelease();
    destroyed, released := r.destroyed, r.IsReleased();
  }
}
