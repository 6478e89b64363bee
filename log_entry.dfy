/**
  The guard `Log.__init__` runs before handing a raw log entry to the record
  constructor: an entry without an `explanation` key must carry all four keys
  of a structured change. Only which keys are present matters, never their
  values.
*/
module LogEntry {

  const Explanation := "explanation"

  /** The keys of a structured change: what changed, from what, to what, and how. */
  const DiffKeys: set<string> := {"key", "new_value", "type", "previous_value"}

  /**
    The guard on the key set of the raw entry: `explanation` is present, or
    the intersection of the four change keys with the entry's keys is all four.
  */
  predicate Admissible(keys: set<string>)
  {
    Explanation in keys || DiffKeys * keys == DiffKeys
  }

  /** The guard passes exactly when an explanation is given or each of the four change keys is. */
  lemma AdmissibleSpec(keys: set<string>)
    ensures Admissible(keys) <==>
      Explanation in keys
      || ("key" in keys && "new_value" in keys && "type" in keys && "previous_value" in keys)
  {
    if "key" in keys && "new_value" in keys && "type" in keys && "previous_value" in keys {
      assert DiffKeys <= keys;
    }
    if DiffKeys * keys == DiffKeys {
      assert "key" in DiffKeys * keys && "previous_value" in DiffKeys * keys;
      assert "new_value" in DiffKeys * keys && "type" in DiffKeys * keys;
    }
  }

  /** Without an explanation, any proper part of the four change keys, none included, fails the guard. */
  lemma PartialDiffRejected(keys: set<string>)
    requires Explanation !in keys
    requires DiffKeys * keys < DiffKeys
    ensures !Admissible(keys)
  {
  }

  /**
    Keys other than `explanation` and the four change keys (`previous_version`,
    `user`, `timestamp`, anything else) play no part in the guard.
  */
  lemma OtherKeysIgnored(keys: set<string>, others: set<string>)
    requires others !! (DiffKeys + {Explanation})
    ensures Admissible(keys + others) == Admissible(keys)
    ensures Admissible(keys - others) == Admissible(keys)
  {
    assert DiffKeys * (keys + others) == DiffKeys * keys;
    assert DiffKeys * (keys - others) == DiffKeys * keys;
  }

  /** Adding keys never makes an admissible entry inadmissible. */
  lemma AdmissibleMonotone(keys: set<string>, more: set<string>)
    requires Admissible(keys) && keys <= more
    ensures Admissible(more)
  {
    assert DiffKeys * keys <= DiffKeys * more;
  }
}
