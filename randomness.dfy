/**
 * The two sources of randomness the generator (etl/generate_mock_data.py)
 * draws from, as oracles: Python's module-level `random` generator and a
 * Faker instance. Each is a fixed stream of raw draws and a cursor into it;
 * how a draw turns into a value mirrors the call's contract (a value of the
 * range or of the list), not the library's internal algorithm.
 */
module Randomness {
  import opened Wrappers
  import opened Calendar

  /** `random.randint` on an empty range raises `ValueError`. */
  datatype RandomError = EmptyRange(lo: int, hi: int)

  /** The module-level `random` generator. */
  class Random {
    /** The raw draws the generator will produce, in order. */
    const stream: nat -> nat
    /** How many draws have been consumed. */
    var position: nat

    constructor (stream: nat -> nat)
      ensures this.stream == stream && position == 0
    {
      this.stream := stream;
      position := 0;
    }

    /** `random.randint(lo, hi)`: some value of `lo..hi`, or `ValueError` when the range is empty. */
    method RandInt(lo: int, hi: int) returns (r: Result<int, RandomError>)
      modifies this
      ensures lo <= hi ==> r == Success(lo + stream(old(position)) % (hi - lo + 1))
      ensures lo <= hi ==> lo <= r.value <= hi && position == old(position) + 1
      ensures lo > hi ==> r == Failure(EmptyRange(lo, hi)) && position == old(position)
    {
      if lo > hi {
        return Failure(EmptyRange(lo, hi));
      }
      r := Success(lo + stream(position) % (hi - lo + 1));
      position := position + 1;
    }

    /** `random.choice(xs)` on a non-empty list: one of its elements. */
    method Choice<T>(xs: seq<T>) returns (r: T)
      requires |xs| > 0
      modifies this
      ensures r == xs[stream(old(position)) % |xs|] && r in xs
      ensures position == old(position) + 1
    {
      r := xs[stream(position) % |xs|];
      position := position + 1;
    }
  }

  /** A Faker instance: name corpora and its own stream of draws. */
  class Faker {
    const maleNames: seq<string>
    const femaleNames: seq<string>
    const stream: nat -> nat
    var position: nat

    /** Both corpora hold at least one name. */
    predicate Ready() {
      |maleNames| > 0 && |femaleNames| > 0
    }

    constructor (maleNames: seq<string>, femaleNames: seq<string>, stream: nat -> nat)
      requires |maleNames| > 0 && |femaleNames| > 0
      ensures Ready() && this.maleNames == maleNames && this.femaleNames == femaleNames
      ensures this.stream == stream && position == 0
    {
      this.maleNames := maleNames;
      this.femaleNames := femaleNames;
      this.stream := stream;
      position := 0;
    }

    /** `fake.name_male()`. */
    method NameMale() returns (s: string)
      requires Ready()
      modifies this
      ensures s in maleNames && position == old(position) + 1
    {
      s := maleNames[stream(position) % |maleNames|];
      position := position + 1;
    }

    /** `fake.name_female()`. */
    method NameFemale() returns (s: string)
      requires Ready()
      modifies this
      ensures s in femaleNames && position == old(position) + 1
    {
      s := femaleNames[stream(position) % |femaleNames|];
      position := position + 1;
    }

    /** `fake.date_between(start, end)`: some day from `start` to `end`, both included. */
    method DateBetween(start: Date, end: Date) returns (d: Date)
      requires Valid(start) && Valid(end) && Ordinal(start) <= Ordinal(end)
      modifies this
      ensures Valid(d) && Ordinal(start) <= Ordinal(d) <= Ordinal(end)
      ensures position == old(position) + 1
    {
      d := AddDays(start, stream(position) % (Ordinal(end) - Ordinal(start) + 1));
      position := position + 1;
    }
  }
}
