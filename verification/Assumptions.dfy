/** The assumptions about digests and readers can all be met at once: by 64 hexadecimal
    digits that tell any given byte strings apart, and by a reader of canonical markers. */
module Assumptions {
  import opened Basics
  import opened Bytes
  import opened Package
  import opened PackageValidator
  import opened ProfileStore
  import opened CurrentSelection
  import opened StoreRuns

  // ----- numbers in hexadecimal -----

  const DIGITS: string := "0123456789abcdef"

  function PowerOf16(n: nat): nat {
    if n == 0 then 1 else 16 * PowerOf16(n - 1)
  }

  function Hex(i: nat, n: nat): (s: string)
    ensures |s| == n
  {
    if n == 0 then "" else Hex(i / 16, n - 1) + [DIGITS[i % 16]]
  }

  lemma {:induction false} HexIsHex(i: nat, n: nat)
    ensures IsHex(Hex(i, n), n)
  {
    if n > 0 {
      HexIsHex(i / 16, n - 1);
      DigitIsHex(i % 16);
    }
  }

  lemma DigitIsHex(d: nat)
    requires d < 16
    ensures '0' <= DIGITS[d] <= '9' || 'a' <= DIGITS[d] <= 'f'
    ensures forall c | 0 <= c < 16 && DIGITS[c] == DIGITS[d] :: c == d
  {
  }

  lemma {:induction false} HexIsInjective(i: nat, j: nat, n: nat)
    requires i < PowerOf16(n) && j < PowerOf16(n) && Hex(i, n) == Hex(j, n)
    ensures i == j
  {
    if n > 0 {
      var a, b := Hex(i / 16, n - 1), Hex(j / 16, n - 1);
      assert Hex(i, n)[..n - 1] == a && Hex(j, n)[..n - 1] == b;
      assert Hex(i, n)[n - 1] == DIGITS[i % 16] && Hex(j, n)[n - 1] == DIGITS[j % 16];
      DigitIsHex(j % 16);
      HexIsInjective(i / 16, j / 16, n - 1);
    }
  }

  // ----- a digest that tells given byte strings apart -----

  function IndexOf(list: seq<Bytes>, b: Bytes): (i: nat)
    ensures i <= |list| && (i < |list| ==> list[i] == b)
    ensures b in list ==> i < |list|
  {
    if list == [] || list[0] == b then 0 else 1 + IndexOf(list[1..], b)
  }

  lemma {:induction false} ListOf(given: set<Bytes>) returns (list: seq<Bytes>)
    ensures |list| == |given| && forall b :: b in list <==> b in given
  {
    list := [];
    if given != {} {
      var b :| b in given;
      var rest := ListOf(given - {b});
      list := [b] + rest;
    }
  }

  /** For any byte strings, up to 16 to the 64th of them, there is a digest of 64
      hexadecimal digits without a collision among them. */
  lemma DigestExists(given: set<Bytes>) returns (digest: Bytes -> string)
    requires |given| <= PowerOf16(64)
    ensures NoCollisions(digest, given) && forall b :: IsHex(digest(b), 64)
  {
    var list := ListOf(given);
    digest := b => Hex(IndexOf(list, b), 64);
    forall b ensures IsHex(digest(b), 64) { HexIsHex(IndexOf(list, b), 64); }
    forall a, b | a in given && b in given && digest(a) == digest(b) ensures a == b {
      HexIsInjective(IndexOf(list, a), IndexOf(list, b), 64);
    }
  }

  // ----- a reader of canonical markers -----

  const ID_AT := |BEFORE_ID|
  const SHA_AT := |BEFORE_ID| + 31 + |BEFORE_SHA|

  function ReadAt(data: string): Option<MarkerJson> {
    if |data| < SHA_AT + 64 then None
    else Some(MarkerJson(FORMAT, 1, data[ID_AT..ID_AT + 31], data[SHA_AT..SHA_AT + 64]))
  }

  lemma ReaderExists()
    ensures ReaderOk(ReadAt)
  {
    forall m: Marker | MarkerOk(m) ensures ReadAt(Canonical(m)) == Some(MarkerJson(FORMAT, 1, m.bodyId, m.sha)) {
      MarkerSizes(m);
      assert Canonical(m)[ID_AT..ID_AT + 31] == m.bodyId;
      assert Canonical(m)[SHA_AT..SHA_AT + 64] == m.sha;
    }
  }

  // ----- together -----

  /** Every environment can be given a digest under which the theorems about a run of
      actions apply. */
  lemma HypothesesCanBeMet(e: Env, actions: seq<Action>) returns (digest: Bytes -> string)
    requires EnvOk(e) && |Given(actions)| <= PowerOf16(64)
    ensures EnvOk(e.(f := e.f.(digest := digest))) && NoCollisions(digest, Given(actions))
  {
    digest := DigestExists(Given(actions));
  }

  /** And there are environments. */
  lemma EnvironmentExists(z: Zip) returns (e: Env)
    ensures EnvOk(e) && e.z == z
  {
    ReaderExists();
    var digest := DigestExists({});
    e := Env(Formats(Unwritable(), Unwritable(), Unwritable(), Unwritable(),
                     _ => true, _ => true, _ => true, digest, (_, _) => 0, _ => None), z, ReadAt);
  }

  function Unwritable<T>(): Format<T> {
    Format(_ => None, _ => None)
  }
}
