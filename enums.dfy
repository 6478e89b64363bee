/**
  The custom enumeration semantics of `HowlerEnumMeta` and `HowlerEnum`.

  An enumeration is the sequence of (name, value) pairs of its class body, in
  declaration order. As in Python's `Enum`, a member whose value was already
  declared by an earlier member is an alias: it is reachable by name, but
  iteration (and hence `list()` and `in`) sees only the canonical members, the
  first member declared with each value.
*/
module Enums {
  import opened Wrappers

  /** One line `NAME = "value"` of an enumeration class body. */
  datatype Member = Member(name: string, value: string)

  /** An enumeration class: its members in declaration order, aliases included. */
  datatype EnumTable = EnumTable(declared: seq<Member>)

  /** Errors raised by name lookup (`KeyError` in Python). */
  datatype EnumError = UnknownEnumMember(token: string)

  /** Python's `str.upper()` on one character, restricted to ASCII letters. */
  function UpperChar(c: char): char
  {
    if 'a' <= c <= 'z' then (c as int - 32) as char else c
  }

  /** Python's `str.lower()` on one character, restricted to ASCII letters. */
  function LowerChar(c: char): char
  {
    if 'A' <= c <= 'Z' then (c as int + 32) as char else c
  }

  /** One character of `token.upper().replace("-", "_")`. */
  function NormalizeChar(c: char): char
  {
    if c == '-' then '_' else UpperChar(c)
  }

  /** `str(token).upper().replace("-", "_")`: the form in which a token is compared with member names. */
  function Normalize(token: string): string
  {
    seq(|token|, i requires 0 <= i < |token| => NormalizeChar(token[i]))
  }

  /** `str.lower()` on ASCII letters. */
  function Lower(token: string): string
  {
    seq(|token|, i requires 0 <= i < |token| => LowerChar(token[i]))
  }

  /** Every `-` of `token` replaced by `_`, nothing else changed. */
  function Underscored(token: string): string
  {
    seq(|token|, i requires 0 <= i < |token| => if token[i] == '-' then '_' else token[i])
  }

  /** `token` is already in normal form: an identifier of upper-case letters, digits and `_`. */
  predicate IsNameForm(token: string)
  {
    forall i :: 0 <= i < |token| ==> 'A' <= token[i] <= 'Z' || '0' <= token[i] <= '9' || token[i] == '_'
  }

  /** `[e.name for e in ms]` */
  function Names(ms: seq<Member>): seq<string>
  {
    seq(|ms|, i requires 0 <= i < |ms| => ms[i].name)
  }

  /** `[e.value for e in ms]` */
  function Values(ms: seq<Member>): seq<string>
  {
    seq(|ms|, i requires 0 <= i < |ms| => ms[i].value)
  }

  /**
    The members Python's `Enum` iterates over: a declared member is kept unless
    an earlier member already declared its value.
  */
  function Canonical(ms: seq<Member>): seq<Member>
  {
    if ms == [] then []
    else
      var earlier := ms[..|ms| - 1];
      var m := ms[|ms| - 1];
      Canonical(earlier) + (if m.value in Values(earlier) then [] else [m])
  }

  /** The first member declared with name `name` (`_member_map_` key). */
  function FindByName(ms: seq<Member>, name: string): (r: Option<Member>)
    ensures r.Some? <==> name in Names(ms)
    ensures r.Some? ==> r.value in ms && r.value.name == name && r.value.value in Values(ms)
  {
    if ms == [] then None
    else
      NamesCons(ms);
      ValuesCons(ms);
      if ms[0].name == name then Some(ms[0]) else FindByName(ms[1..], name)
  }

  /** The first member declared with value `value`: the member that its aliases stand for. */
  function FindByValue(ms: seq<Member>, value: string): (r: Option<Member>)
    ensures r.Some? <==> value in Values(ms)
    ensures r.Some? ==> r.value in ms && r.value.value == value
  {
    if ms == [] then None
    else
      ValuesCons(ms);
      if ms[0].value == value then Some(ms[0]) else FindByValue(ms[1..], value)
  }

  /** `HowlerEnum.list()`: the values of the canonical members, in declaration order. */
  function ListValues(e: EnumTable): seq<string>
  {
    Values(Canonical(e.declared))
  }

  /** `HowlerEnumMeta.__contains__`: the normalised token is a canonical name, or the token verbatim is a value. */
  function Contains(e: EnumTable, token: string): bool
  {
    Normalize(token) in Names(Canonical(e.declared)) || token in ListValues(e)
  }

  /**
    `HowlerEnumMeta.__getitem__`: the normalised token must be the name of a
    declared member (aliases included); the result is the canonical member
    with that member's value.
  */
  function Lookup(e: EnumTable, token: string): Result<Member, EnumError>
  {
    match FindByName(e.declared, Normalize(token))
    case None => Err(UnknownEnumMember(token))
    case Some(m) =>
      match FindByValue(e.declared, m.value)
      case Some(c) => Ok(c)
      case None => assert false; Err(UnknownEnumMember(token))
  }

  /** No two declared members share a value, so the enumeration has no aliases. */
  predicate NoAliases(ms: seq<Member>)
  {
    forall i, j :: 0 <= i < j < |ms| ==> ms[i].value != ms[j].value
  }

  /** No two declared members share a name (Python refuses such a class body). */
  predicate UniqueNames(ms: seq<Member>)
  {
    forall i, j :: 0 <= i < j < |ms| ==> ms[i].name != ms[j].name
  }

  /** No value occurs twice in `vs`. */
  predicate Distinct(vs: seq<string>)
  {
    forall i, j :: 0 <= i < j < |vs| ==> vs[i] != vs[j]
  }

  // ---------------------------------------------------------------------------
  // Normalisation

  /** Normalisation works character by character and keeps the length. */
  lemma NormalizeAt(token: string)
    ensures |Normalize(token)| == |token|
    ensures forall i :: 0 <= i < |token| ==> Normalize(token)[i] == NormalizeChar(token[i])
  {
  }

  /** Normalising twice is normalising once. */
  lemma NormalizeIdempotent(token: string)
    ensures Normalize(Normalize(token)) == Normalize(token)
  {
    NormalizeAt(token);
    NormalizeAt(Normalize(token));
  }

  /** Case does not matter to normalisation: a token and its lower-case form normalise alike. */
  lemma NormalizeIgnoresCase(token: string)
    ensures Normalize(Lower(token)) == Normalize(token)
  {
  }

  /** `-` and `_` are interchangeable: a token normalises like its underscored form. */
  lemma NormalizeIgnoresDashes(token: string)
    ensures Normalize(Underscored(token)) == Normalize(token)
  {
  }

  /** A name written as an identifier of upper-case letters, digits and `_` is its own normal form. */
  lemma NameFormIsNormal(name: string)
    requires IsNameForm(name)
    ensures Normalize(name) == name
  {
    NormalizeAt(name);
  }

  /** Spaces are not normalised: a token containing a space never normalises to a name-form identifier. */
  lemma SpaceIsKept(token: string, i: nat)
    requires i < |token| && token[i] == ' '
    ensures !IsNameForm(Normalize(token))
  {
    NormalizeAt(token);
    assert Normalize(token)[i] == ' ';
  }

  // ---------------------------------------------------------------------------
  // Names, values and the canonical members

  lemma NamesHas(ms: seq<Member>, x: string)
    ensures x in Names(ms) <==> exists m :: m in ms && m.name == x
  {
    if x in Names(ms) {
      var i :| 0 <= i < |ms| && Names(ms)[i] == x;
      assert ms[i] in ms;
    }
    if exists m :: m in ms && m.name == x {
      var m :| m in ms && m.name == x;
      var i :| 0 <= i < |ms| && ms[i] == m;
      assert Names(ms)[i] == x;
    }
  }

  lemma ValuesHas(ms: seq<Member>, x: string)
    ensures x in Values(ms) <==> exists m :: m in ms && m.value == x
  {
    if x in Values(ms) {
      var i :| 0 <= i < |ms| && Values(ms)[i] == x;
      assert ms[i] in ms;
    }
    if exists m :: m in ms && m.value == x {
      var m :| m in ms && m.value == x;
      var i :| 0 <= i < |ms| && ms[i] == m;
      assert Values(ms)[i] == x;
    }
  }

  lemma NamesCons(ms: seq<Member>)
    requires ms != []
    ensures Names(ms) == [ms[0].name] + Names(ms[1..])
  {
  }

  lemma ValuesCons(ms: seq<Member>)
    requires ms != []
    ensures Values(ms) == [ms[0].value] + Values(ms[1..])
  {
  }

  lemma {:induction false} FindByValueAppend(ms: seq<Member>, m: Member, v: string)
    ensures FindByValue(ms + [m], v)
         == if v in Values(ms) then FindByValue(ms, v)
            else if m.value == v then Some(m) else None
  {
    if ms == [] {
      assert [m] + [] == [m];
    } else {
      assert (ms + [m])[1..] == ms[1..] + [m];
      FindByValueAppend(ms[1..], m, v);
      ValuesCons(ms);
    }
  }

  /** The member found by a value is the first one declared with it. */
  lemma {:induction false} FindByValueFirst(ms: seq<Member>, v: string, j: nat)
    requires j < |ms| && ms[j].value == v && v !in Values(ms[..j])
    ensures FindByValue(ms, v) == Some(ms[j])
  {
    ValuesCons(ms);
    if j > 0 {
      ValuesCons(ms[..j]);
      assert ms[1..][..j - 1] == ms[..j][1..];
      FindByValueFirst(ms[1..], v, j - 1);
    }
  }

  /**
    A declared member is iterated over exactly when it is the first member
    declared with its value, i.e. when it is not an alias.
  */
  lemma {:induction false} CanonicalMembers(ms: seq<Member>, c: Member)
    ensures c in Canonical(ms) <==> c in ms && FindByValue(ms, c.value) == Some(c)
  {
    if ms != [] {
      var earlier, m := ms[..|ms| - 1], ms[|ms| - 1];
      assert ms == earlier + [m];
      CanonicalMembers(earlier, c);
      FindByValueAppend(earlier, m, c.value);
      ValuesHas(earlier, c.value);
      assert forall x :: x in ms <==> x in earlier || x == m;
    }
  }

  /** Iteration never visits two members with the same value, and it visits every declared value. */
  lemma {:induction false} CanonicalValues(ms: seq<Member>)
    ensures Distinct(Values(Canonical(ms)))
    ensures forall v :: v in Values(Canonical(ms)) <==> v in Values(ms)
  {
    if ms != [] {
      var earlier, m := ms[..|ms| - 1], ms[|ms| - 1];
      assert ms == earlier + [m];
      CanonicalValues(earlier);
      var tail := if m.value in Values(earlier) then [] else [m];
      ValuesConcat(Canonical(earlier), tail);
      ValuesConcat(earlier, [m]);
      assert Values([m]) == [m.value];
      assert Values([]) == [];
    }
  }

  lemma {:induction false} ValuesConcat(a: seq<Member>, b: seq<Member>)
    ensures Values(a + b) == Values(a) + Values(b)
  {
    if a == [] {
      assert a + b == b;
    } else {
      assert (a + b)[1..] == a[1..] + b;
      ValuesConcat(a[1..], b);
    }
  }

  /** An enumeration without aliases is iterated over in full, in declaration order. */
  lemma {:induction false} CanonicalWithoutAliases(ms: seq<Member>)
    requires NoAliases(ms)
    ensures Canonical(ms) == ms
  {
    if ms != [] {
      var earlier, m := ms[..|ms| - 1], ms[|ms| - 1];
      assert ms == earlier + [m];
      CanonicalWithoutAliases(earlier);
      assert m.value !in Values(earlier);
    }
  }

  // ---------------------------------------------------------------------------
  // Membership and lookup

  /**
    Name lookup succeeds exactly when the normalised token is the name of a
    declared member, aliases included; it never matches a value. The member
    it returns is canonical and carries the value of the member so named.
  */
  lemma LookupSpec(e: EnumTable, token: string)
    ensures Lookup(e, token).Ok? <==> Normalize(token) in Names(e.declared)
    ensures Lookup(e, token).Ok? ==>
      var c := Lookup(e, token).value;
      && c in Canonical(e.declared)
      && exists m :: m in e.declared && m.name == Normalize(token) && m.value == c.value
  {
    match FindByName(e.declared, Normalize(token))
    case None =>
    case Some(m) =>
      var c := FindByValue(e.declared, m.value).value;
      CanonicalMembers(e.declared, c);
  }

  /** Membership over the members iteration visits. */
  lemma ContainsCanonical(e: EnumTable, token: string)
    ensures Contains(e, token) <==>
      exists c :: c in Canonical(e.declared) && (c.name == Normalize(token) || c.value == token)
  {
    NamesHas(Canonical(e.declared), Normalize(token));
    ValuesHas(Canonical(e.declared), token);
  }

  /**
    Membership against the declared table: a token is in an enumeration
    exactly when it is, unchanged, the value of some declared member (an
    alias's value included), or its normal form is the name of a declared
    member that is not an alias. The name of an alias never admits a token.
  */
  lemma ContainsSpec(e: EnumTable, token: string)
    ensures Contains(e, token) <==>
      || token in Values(e.declared)
      || exists m :: m in e.declared && FindByValue(e.declared, m.value) == Some(m) && m.name == Normalize(token)
  {
    var d := e.declared;
    ContainsCanonical(e, token);
    CanonicalValues(d);
    ValuesHas(d, token);
    ValuesHas(Canonical(d), token);
    if Contains(e, token) {
      var c :| c in Canonical(d) && (c.name == Normalize(token) || c.value == token);
      CanonicalMembers(d, c);
    }
    if exists m :: m in d && FindByValue(d, m.value) == Some(m) && m.name == Normalize(token) {
      var m :| m in d && FindByValue(d, m.value) == Some(m) && m.name == Normalize(token);
      CanonicalMembers(d, m);
    }
  }

  /** Every canonical member is found by its value, by any spelling of its name, and by that name in lower case. */
  lemma ContainsEveryMember(e: EnumTable, c: Member, token: string)
    requires c in Canonical(e.declared)
    requires Normalize(token) == c.name
    ensures Contains(e, c.value)
    ensures Contains(e, token) && Contains(e, Lower(token)) && Contains(e, Underscored(token))
  {
    ContainsCanonical(e, c.value);
    ContainsCanonical(e, token);
    NormalizeIgnoresCase(token);
    ContainsCanonical(e, Lower(token));
    NormalizeIgnoresDashes(token);
    ContainsCanonical(e, Underscored(token));
  }

  /** Lookup ignores case and treats `-` like `_`. */
  lemma LookupIgnoresCaseAndDashes(e: EnumTable, token: string)
    ensures Lookup(e, Lower(token)).Ok? == Lookup(e, token).Ok?
    ensures Lookup(e, Underscored(token)).Ok? == Lookup(e, token).Ok?
    ensures Lookup(e, token).Ok? ==>
      Lookup(e, Lower(token)).value == Lookup(e, token).value == Lookup(e, Underscored(token)).value
  {
    NormalizeIgnoresCase(token);
    NormalizeIgnoresDashes(token);
  }

  /**
    For an enumeration without aliases whose every value normalises to its
    member's name, membership and successful lookup coincide.
  */
  lemma {:induction false} ContainsIffLookup(e: EnumTable, token: string)
    requires NoAliases(e.declared)
    requires forall i :: 0 <= i < |e.declared| ==> Normalize(e.declared[i].value) == e.declared[i].name
    ensures Contains(e, token) <==> Lookup(e, token).Ok?
  {
    CanonicalWithoutAliases(e.declared);
    LookupSpec(e, token);
    ContainsCanonical(e, token);
    NamesHas(e.declared, Normalize(token));
  }

  /**
    In an enumeration whose names are unique, looking up any spelling of a
    declared member's name yields the canonical member carrying that member's
    value, whether or not the member is an alias.
  */
  lemma LookupAt(e: EnumTable, i: nat, token: string)
    requires UniqueNames(e.declared)
    requires i < |e.declared| && Normalize(token) == e.declared[i].name
    ensures Lookup(e, token).Ok?
    ensures Lookup(e, token).value in Canonical(e.declared)
    ensures Lookup(e, token).value.value == e.declared[i].value
  {
    NamesHas(e.declared, Normalize(token));
    assert e.declared[i] in e.declared;
    LookupSpec(e, token);
  }

  lemma {:induction false} CanonicalSnoc(ms: seq<Member>, m: Member)
    ensures Canonical(ms + [m]) == Canonical(ms) + (if m.value in Values(ms) then [] else [m])
  {
    assert (ms + [m])[..|ms + [m]| - 1] == ms;
  }

  /** Members declared after a prefix that already holds all of their values are aliases: iteration sees only the prefix's members. */
  lemma {:induction false} CanonicalOfPrefix(ms: seq<Member>, k: nat)
    requires k <= |ms|
    requires forall j :: k <= j < |ms| ==> ms[j].value in Values(ms[..k])
    ensures Canonical(ms) == Canonical(ms[..k])
  {
    if k < |ms| {
      var earlier := ms[..|ms| - 1];
      assert earlier[..k] == ms[..k];
      CanonicalOfPrefix(earlier, k);
      var m := ms[|ms| - 1];
      ValuesHas(ms[..k], m.value);
      var w :| w in ms[..k] && w.value == m.value;
      assert w in earlier;
      ValuesHas(earlier, m.value);
    } else {
      assert ms[..k] == ms;
    }
  }
}
