/** Scaling adjustments of an autoscaling group (AutoScalingGroup in heat/engine/resources/autoscaling.py). */
module Adjustments {
  import opened Wrappers
  import opened ScalingTemplates
  import opened RollingUpdates

  datatype AdjustmentType = ChangeInCapacity | ExactCapacity | PercentChangeInCapacity

  /** n / 100, in whole instances: away from zero below one instance, towards zero above. */
  function Rounded(n: int): int {
    if n >= 100 then n / 100
    else if n > 0 then 1
    else if n == 0 then 0
    else if n > -100 then -1
    else -((-n) / 100)
  }

  /**
    A percentage is never lost in rounding: it changes the size by less than one
    instance from the exact amount, in its direction.
  */
  lemma PercentageCounts(n: int)
    ensures -100 < n - 100 * Rounded(n) < 100
    ensures (n > 0 ==> Rounded(n) >= 1) && (n < 0 ==> Rounded(n) <= -1) && (n == 0 ==> Rounded(n) == 0)
    ensures n >= 100 ==> 100 * Rounded(n) <= n
    ensures n <= -100 ==> 100 * Rounded(n) >= n
  {
  }

  function Requested(capacity: nat, kind: AdjustmentType, adjustment: int): int {
    match kind
    case ChangeInCapacity => capacity + adjustment
    case ExactCapacity => adjustment
    case PercentChangeInCapacity => capacity + Rounded(capacity * adjustment)
  }

  function Clamp(n: int, lower: int, upper: int): int {
    Max(lower, Min(n, upper))
  }

  /**
    The size to which a group of that capacity is resized, if at all: the
    size nearest to the request that is allowed, unless that is the size
    already, or a bound is overstepped that the group is at or beyond.
  */
  ghost function Resizing(capacity: int, requested: int, lower: int, upper: int): Option<int> {
    var size := Clamp(requested, lower, upper);
    if size == capacity then None
    else if (requested > upper && capacity >= upper) || (requested < lower && capacity <= lower) then None
    else Some(size)
  }

  /** How far an adjustment is to take a group of before instances, in hundredths of an instance. */
  function Distance(kind: AdjustmentType, adjustment: int, before: nat): int {
    match kind
    case ChangeInCapacity => 100 * adjustment
    case ExactCapacity => 100 * (adjustment - before)
    case PercentChangeInCapacity => before * adjustment
  }

  /**
    How a group of before instances comes out of an adjustment. If the bounds
    allow for the whole distance, it has been gone, up to a fraction of an
    instance for a percentage. A group of an allowed size otherwise reaches the
    bound that is in the way, and never goes in the wrong direction.
  */
  ghost predicate Follows(kind: AdjustmentType, adjustment: int, before: nat, after: int, lower: int, upper: int) {
    var distance, change := Distance(kind, adjustment, before), 100 * (after - before);
    && (100 * (lower - before) <= distance <= 100 * (upper - before) ==>
          && -100 < change - distance < 100 && (kind.PercentChangeInCapacity? || change == distance)
          && (distance > 0 ==> change > 0) && (distance < 0 ==> change < 0))
    && (lower <= before <= upper ==>
          && (distance >= 0 ==> after >= before) && (distance <= 0 ==> after <= before)
          && (distance > 100 * (upper - before) ==> after == upper)
          && (distance < 100 * (lower - before) ==> after == lower))
  }

  lemma AdjustmentFollows(kind: AdjustmentType, adjustment: int, before: nat, lower: int, upper: int)
    requires lower <= upper
    ensures var resizing := Resizing(before, Requested(before, kind, adjustment), lower, upper);
      Follows(kind, adjustment, before, if resizing.Some? then resizing.value else before, lower, upper)
  {
    PercentageCounts(before * adjustment);
  }

  datatype Adjusted = CoolingDown | NotNeeded | Done(size: nat) | Failed

  /**
    One adjustment that is asked for, with what the clock and the configuration
    then say, and whether resizing the nested stack would fail.
  */
  datatype Request = Request(kind: AdjustmentType, adjustment: int, cooling: bool, definition: Definition, fails: bool)

  class AutoScalingGroup {
    const group: InstanceGroup
    var minSize: int
    var maxSize: int

    /** What validate() demands. */
    ghost predicate Valid()
      reads this, group
    {
      group.Valid() && 0 <= minSize <= maxSize
    }

    constructor (g: InstanceGroup, lower: int, upper: int)
      requires g.Valid() && 0 <= lower <= upper
      ensures Valid() && group == g && minSize == lower && maxSize == upper
    {
      group, minSize, maxSize := g, lower, upper;
    }

    /** adjust. */
    method Adjust(r: Request) returns (result: Adjusted)
      requires Valid()
      modifies group
      ensures var resizing := Resizing(|old(group.instances)|,
                                       Requested(|old(group.instances)|, r.kind, r.adjustment), minSize, maxSize);
        && (result == CoolingDown <==> r.cooling)
        && (result == NotNeeded <==> !r.cooling && resizing == None)
        && (result == CoolingDown || result == NotNeeded ==> unchanged(group))
        && (result == Failed <==> !r.cooling && resizing.Some? && r.fails)
        && (result.Done? ==> resizing == Some(result.size))
      ensures result.Done? ==>
        && minSize <= result.size <= maxSize && |group.instances| == result.size
        && exists ids: seq<Name> ::
          && (forall i :: 0 <= i < |ids| ==> old(group.nextId) <= ids[i])
          && |ids| == Positive(result.size - |old(group.instances)|)
          && Elements(group.instances) == Elements(Resized(old(group.instances), result.size, ids, r.definition))
      ensures !r.cooling && result != Failed ==>
        Follows(r.kind, r.adjustment, |old(group.instances)|, |group.instances|, minSize, maxSize)
      ensures result != Failed ==> Valid()
    {
      AdjustmentFollows(r.kind, r.adjustment, |group.instances|, minSize, maxSize);
      if r.cooling {
        return CoolingDown;
      }
      var capacity := |group.instances|;
      var newCapacity;
      match r.kind {
        case ChangeInCapacity => newCapacity := capacity + r.adjustment;
        case ExactCapacity => newCapacity := r.adjustment;
        case PercentChangeInCapacity => newCapacity := capacity + Rounded(capacity * r.adjustment);
      }
      if newCapacity > maxSize {
        if maxSize > capacity {
          newCapacity := maxSize;
        } else {
          return NotNeeded;
        }
      }
      if newCapacity < minSize {
        if minSize < capacity {
          newCapacity := minSize;
        } else {
          return NotNeeded;
        }
      }
      if newCapacity == capacity {
        return NotNeeded;
      }
      var done, ids := group.Resize(r.definition, newCapacity, r.fails);
      result := if done then Done(newCapacity) else Failed;
    }

    /** A group of an allowed size always moves to the allowed size nearest to the request. */
    static lemma WithinBounds(capacity: int, requested: int, lower: int, upper: int)
      requires lower <= capacity <= upper
      ensures Resizing(capacity, requested, lower, upper)
              == if Clamp(requested, lower, upper) == capacity then None else Some(Clamp(requested, lower, upper))
    {
    }

    /** Any number of adjustments, as long as every resize succeeds. */
    method AdjustAll(requests: seq<Request>) returns (done: bool, sizes: seq<nat>)
      requires Valid()
      modifies group
      ensures forall n :: n in sizes ==> minSize <= n <= maxSize
      ensures (forall r :: r in requests ==> !r.fails) ==> done
      ensures done ==> Valid()
      ensures done ==> |group.instances| == if sizes == [] then |old(group.instances)| else sizes[|sizes| - 1]
      ensures done && old(minSize <= |group.instances| <= maxSize) ==> minSize <= |group.instances| <= maxSize
    {
      sizes := [];
      for i := 0 to |requests|
        invariant Valid()
        invariant forall n :: n in sizes ==> minSize <= n <= maxSize
        invariant |group.instances| == if sizes == [] then |old(group.instances)| else sizes[|sizes| - 1]
      {
        var result := Adjust(requests[i]);
        if result == Failed {
          return false, sizes;
        }
        if result.Done? {
          sizes := sizes + [result.size];
        }
      }
      assert sizes != [] ==> sizes[|sizes| - 1] in sizes;
      done := true;
    }

    /**
      handle_update, after MinSize, MaxSize or DesiredCapacity have changed: the
      group is brought back into its bounds.
    */
    method UpdateSizes(lower: int, upper: int, desired: Option<int>, desiredChanged: bool, cooling: bool, d: Definition,
                       fails: bool)
      returns (result: Adjusted)
      requires Valid() && 0 <= lower <= upper
        && (desired.Some? && desired.value != 0 ==> lower <= desired.value <= upper)
      modifies this, group
      ensures minSize == lower && maxSize == upper
      ensures !fails ==> result != Failed
      ensures result != Failed ==> Valid()
      ensures result != Failed && old(minSize <= |group.instances| <= maxSize) ==>
        (lower <= |group.instances| <= upper <==> !cooling || lower <= |old(group.instances)| <= upper)
      ensures !cooling && result != Failed && old(minSize <= |group.instances| <= maxSize) ==>
        |group.instances| == if desiredChanged && desired.Some? && desired.value != 0 then desired.value
                             else Clamp(|old(group.instances)|, lower, upper)
    {
      var capacity := |group.instances|;
      var newCapacity: Option<int> := None;
      if lower != minSize {
        if capacity < lower {
          newCapacity := Some(lower);
        }
      }
      if upper != maxSize {
        if capacity > upper {
          newCapacity := Some(upper);
        }
      }
      if desiredChanged {
        if desired.Some? && desired.value != 0 {
          newCapacity := desired;
        }
      }
      minSize, maxSize := lower, upper;
      if newCapacity.Some? {
        result := Adjust(Request(ExactCapacity, newCapacity.value, cooling, d, fails));
      } else {
        result := NotNeeded;
      }
    }
  }
}
