/** The error status of a backup, verify, job or job set (module `Error`,
    ruby_backup.rb:57-61): a set of two bits combined with Ruby's `|`. */
module ErrorFlags {

  /** The values the source ever produces: OR-combinations of 0, 1 and 2. */
  type Flags = x: int | 0 <= x <= 3

  const OK: Flags := 0
  /** The output had a shape the classifier does not recognise. */
  const MAYBE: Flags := 1
  /** A recognised failure, or a nonzero exit status. */
  const YES: Flags := 2

  /** `f & Error::YES > 0` */
  predicate HasYes(f: Flags) {
    f / 2 == 1
  }

  /** `f & Error::MAYBE > 0` */
  predicate HasMaybe(f: Flags) {
    f % 2 == 1
  }

  /** Ruby's integer `|` restricted to 0..3. */
  function Or(a: Flags, b: Flags): (r: Flags)
    ensures HasYes(r) <==> HasYes(a) || HasYes(b)
    ensures HasMaybe(r) <==> HasMaybe(a) || HasMaybe(b)
  {
    if a == b || b == OK then a
    else if a == OK then b
    else 3
  }

  /** A flag value is determined by its two bits. */
  lemma SameBits(a: Flags, b: Flags)
    requires HasYes(a) == HasYes(b) && HasMaybe(a) == HasMaybe(b)
    ensures a == b
  {
  }

  /** `|` is a commutative, associative, idempotent combine with unit OK,
      so the order in which sinks and jobs are visited does not change it. */
  lemma OrLaws(a: Flags, b: Flags, c: Flags)
    ensures Or(a, b) == Or(b, a)
    ensures Or(Or(a, b), c) == Or(a, Or(b, c))
    ensures Or(a, a) == a && Or(a, OK) == a && Or(OK, a) == a
  {
  }

  /** The fold `fs.inject(0) { |memo, f| memo | f }`. */
  function OrAll(fs: seq<Flags>): (r: Flags)
    ensures HasYes(r) <==> exists i :: 0 <= i < |fs| && HasYes(fs[i])
    ensures HasMaybe(r) <==> exists i :: 0 <= i < |fs| && HasMaybe(fs[i])
  {
    if fs == [] then OK
    else
      var init := fs[..|fs| - 1];
      assert forall i :: 0 <= i < |init| ==> init[i] == fs[i];
      Or(OrAll(init), fs[|fs| - 1])
  }

  /** No bit set by any element is cleared by the fold. */
  lemma {:induction false} OrAllKeepsBits(fs: seq<Flags>, i: nat)
    requires i < |fs|
    ensures Or(OrAll(fs), fs[i]) == OrAll(fs)
  {
    var r := OrAll(fs);
    assert HasYes(fs[i]) ==> HasYes(r);
    assert HasMaybe(fs[i]) ==> HasMaybe(r);
    SameBits(Or(r, fs[i]), r);
  }
}
