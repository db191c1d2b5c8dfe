/** Small datatypes shared by every module. */
module Basics {
  datatype Option<+T> = None | Some(value: T)

  /** The outcome of an operation that the program reports by raising. */
  datatype Result<+T, +E> = Ok(value: T) | Err(error: E)

  /** The program's timestamp grammar and its own rendering of an instant. */
  datatype Clock = Clock(validTime: string -> bool, iso: int -> string)

  /** The program can read back the timestamps it writes. */
  ghost predicate ClockOk(k: Clock) {
    forall t :: k.validTime(k.iso(t))
  }

  predicate IsHex(s: string, n: nat) {
    |s| == n && forall i | 0 <= i < n :: '0' <= s[i] <= '9' || 'a' <= s[i] <= 'f'
  }

  predicate Distinct<T(==)>(s: seq<T>) {
    forall i, j | 0 <= i < j < |s| :: s[i] != s[j]
  }

  /** `len(s) == len(set(s))`. */
  lemma {:induction false} SetSizeTellsDistinct<T>(s: seq<T>)
    ensures |set x | x in s| <= |s|
    ensures |s| == |set x | x in s| <==> Distinct(s)
  {
    if s == [] {
      assert (set x | x in s) == {};
    } else {
      var init, last := s[..|s| - 1], s[|s| - 1];
      SetSizeTellsDistinct(init);
      var all, most := set x | x in s, set x | x in init;
      assert s == init + [last];
      assert all == most + {last};
      if last in most {
        assert all == most;
        var i :| 0 <= i < |init| && init[i] == last;
        assert s[i] == s[|s| - 1];
      } else {
        assert |all| == |most| + 1;
        assert Distinct(s) <==> Distinct(init) by {
          if Distinct(init) {
            forall i, j | 0 <= i < j < |s| ensures s[i] != s[j] {
              assert s[i] in init;
            }
          }
          if Distinct(s) {
            forall i, j | 0 <= i < j < |init| ensures init[i] != init[j] {
              assert s[i] != s[j];
            }
          }
        }
      }
    }
  }

  lemma DistinctSnoc<T>(init: seq<T>, last: T)
    ensures Distinct(init + [last]) <==> Distinct(init) && last !in init
  {
    var s := init + [last];
    assert s[|init|] == last;
    if Distinct(s) {
      forall i, j | 0 <= i < j < |init| ensures init[i] != init[j] {
        assert s[i] != s[j];
      }
      forall i | 0 <= i < |init| ensures init[i] != last {
        assert s[i] != s[|init|];
      }
    }
  }

  /** The pieces glued together. */
  function Flatten<T>(pieces: seq<seq<T>>): seq<T> {
    if pieces == [] then [] else pieces[0] + Flatten(pieces[1..])
  }
}
