/** Binding the arguments of a call to the parameters of a built-in function. */
module ArgCheck {
  import opened Options

  /** An argument: whether it is true, and the integer it converts to if it does. */
  datatype Obj = Obj(id: nat, truth: bool, number: Option<int>)

  datatype Val = BoolVal(b: bool) | IntVal(n: int) | ObjVal(o: Obj)

  datatype Kind = BoolKind | IntKind | ObjKind

  /** `mp_arg_t`. */
  datatype Arg = Arg(name: nat, kind: Kind, required: bool, kwOnly: bool, defval: Val)

  /** A keyword argument. */
  datatype Keyword = Keyword(key: nat, value: Obj)

  /** The three ways the call itself can be wrong, and a value that is no integer. */
  datatype Error = ExtraPositional | ArgumentRequired(name: nat) | NotAnInteger(name: nat) | ExtraKeyword

  /** `mp_map_lookup` in the fixed table of a call: the first entry with the key. */
  function Lookup(kws: seq<Keyword>, key: nat): (r: Option<Obj>)
    ensures r.Some? <==> exists k: Keyword :: k in kws && k.key == key
    decreases |kws|
  {
    if kws == [] then None
    else if kws[0].key == key then
      assert kws[0] in kws;
      Some(kws[0].value)
    else
      var rest := Lookup(kws[1..], key);
      assert forall k: Keyword :: k in kws ==> k == kws[0] || k in kws[1..];
      assert forall k: Keyword :: k in kws[1..] ==> k in kws;
      rest
  }

  function Convert(kind: Kind, o: Obj): Option<Val> {
    match kind
    case BoolKind => Some(BoolVal(o.truth))
    case IntKind => if o.number.Some? then Some(IntVal(o.number.value)) else None
    case ObjKind => Some(ObjVal(o))
  }

  /** What is given for parameter `i`: by position, or by keyword, or nothing. */
  function Given(pos: seq<Obj>, kws: seq<Keyword>, allowed: seq<Arg>, i: nat): Option<Obj>
    requires i < |allowed|
  {
    if i < |pos| then Some(pos[i]) else Lookup(kws, allowed[i].name)
  }

  // ----- when a call is a valid binding

  predicate SlotFits(pos: seq<Obj>, kws: seq<Keyword>, allowed: seq<Arg>, i: nat)
    requires i < |allowed|
  {
    var given := Given(pos, kws, allowed, i);
    && (i < |pos| ==> !allowed[i].kwOnly)
    && (allowed[i].required ==> given.Some?)
    && (given.Some? ==> Convert(allowed[i].kind, given.value).Some?)
  }

  /** The value a parameter is bound to. */
  function Slot(pos: seq<Obj>, kws: seq<Keyword>, allowed: seq<Arg>, i: nat): Val
    requires i < |allowed| && SlotFits(pos, kws, allowed, i)
  {
    var given := Given(pos, kws, allowed, i);
    if given.Some? then Convert(allowed[i].kind, given.value).value else allowed[i].defval
  }

  predicate SlotsFit(pos: seq<Obj>, kws: seq<Keyword>, allowed: seq<Arg>) {
    forall i :: 0 <= i < |allowed| ==> SlotFits(pos, kws, allowed, i)
  }

  /** The names that can still be given by keyword. */
  function Names(pos: seq<Obj>, allowed: seq<Arg>): (r: seq<nat>)
    ensures |r| == if |pos| <= |allowed| then |allowed| - |pos| else 0
    ensures forall i :: 0 <= i < |r| ==> r[i] == allowed[|pos| + i].name
  {
    if |pos| <= |allowed| then seq<nat>(|allowed| - |pos|, i requires 0 <= i < |allowed| - |pos| => allowed[|pos| + i].name)
    else []
  }

  function Keys(kws: seq<Keyword>): (r: seq<nat>)
    ensures |r| == |kws| && forall i :: 0 <= i < |r| ==> r[i] == kws[i].key
  {
    seq<nat>(|kws|, i requires 0 <= i < |kws| => kws[i].key)
  }

  predicate Distinct(names: seq<nat>) {
    forall i, j :: 0 <= i < j < |names| ==> names[i] != names[j]
  }

  /** Every keyword names a parameter that no position fills, and no two name the same. */
  predicate KeywordsMatch(names: seq<nat>, keys: seq<nat>) {
    Distinct(keys) && forall k :: k in keys ==> k in names
  }

  /** Nothing extra, no keyword-only parameter by position, no keyword for a filled position, everything
      required there, and every value of its kind. */
  predicate ValidBinding(pos: seq<Obj>, kws: seq<Keyword>, allowed: seq<Arg>) {
    && |pos| <= |allowed|
    && SlotsFit(pos, kws, allowed)
    && KeywordsMatch(Names(pos, allowed), Keys(kws))
  }

  // ----- the loop

  /** How many of the names the keywords have. */
  function Found(names: seq<nat>, keys: seq<nat>): (n: nat)
    ensures n <= |names|
    decreases |names|
  {
    if names == [] then 0 else Found(names[..|names| - 1], keys) + (if names[|names| - 1] in keys then 1 else 0)
  }

  lemma KeysAre(kws: seq<Keyword>, key: nat)
    ensures key in Keys(kws) <==> Lookup(kws, key).Some?
  {
    if key in Keys(kws) {
      var i :| 0 <= i < |kws| && Keys(kws)[i] == key;
      assert kws[i] in kws;
    }
    if k: Keyword :| k in kws && k.key == key {
      var i :| 0 <= i < |kws| && kws[i] == k;
      assert Keys(kws)[i] == key;
    }
  }

  lemma FoundNext(names: seq<nat>, keys: seq<nat>, m: nat)
    requires m < |names|
    ensures Found(names[..m + 1], keys) == Found(names[..m], keys) + (if names[m] in keys then 1 else 0)
  {
    assert names[..m + 1][..m] == names[..m];
  }

  /** Why a parameter cannot be bound. */
  function SlotError(pos: seq<Obj>, kws: seq<Keyword>, allowed: seq<Arg>, i: nat): Error
    requires i < |allowed|
  {
    if i < |pos| && allowed[i].kwOnly then ExtraPositional
    else if Given(pos, kws, allowed, i).None? then ArgumentRequired(allowed[i].name)
    else NotAnInteger(allowed[i].name)
  }

  /** The first parameter that does not fit decides the error. */
  predicate FirstMisfit(pos: seq<Obj>, kws: seq<Keyword>, allowed: seq<Arg>, i: nat) {
    && i < |allowed| && !SlotFits(pos, kws, allowed, i)
    && forall j :: 0 <= j < i ==> SlotFits(pos, kws, allowed, j)
  }

  lemma OneMisfit(pos: seq<Obj>, kws: seq<Keyword>, allowed: seq<Arg>, i: nat)
    requires FirstMisfit(pos, kws, allowed, i)
    ensures !SlotsFit(pos, kws, allowed) && forall j: nat :: FirstMisfit(pos, kws, allowed, j) ==> j == i
  {
    hide SlotFits;
  }

  /** All parameters fit, but there is more than they take. */
  function Surplus(pos: seq<Obj>, kws: seq<Keyword>, allowed: seq<Arg>): Option<Error> {
    if |pos| > |allowed| then Some(ExtraPositional)
    else if Found(Names(pos, allowed), Keys(kws)) < |kws| then Some(ExtraKeyword)
    else None
  }

  /** The call returns normally. */
  predicate Accepted(pos: seq<Obj>, kws: seq<Keyword>, allowed: seq<Arg>) {
    SlotsFit(pos, kws, allowed) && Surplus(pos, kws, allowed).None?
  }

  /** `mp_arg_parse_all`; an exception ends it, so what is in `out` then does not matter. */
  method ParseAll(pos: seq<Obj>, kws: seq<Keyword>, allowed: seq<Arg>, out: array<Val>) returns (error: Option<Error>)
    requires out.Length >= |allowed|
    modifies out
    ensures error.None? <==> Accepted(pos, kws, allowed)
    ensures error.None? ==> forall i :: 0 <= i < |allowed| ==> out[i] == Slot(pos, kws, allowed, i)
    ensures SlotsFit(pos, kws, allowed) ==> error == Surplus(pos, kws, allowed)
    ensures forall i: nat :: FirstMisfit(pos, kws, allowed, i) ==> error == Some(SlotError(pos, kws, allowed, i))
  {
    var posFound, kwsFound := 0, 0;
    ghost var (names, keys) := (Names(pos, allowed), Keys(kws));
    var i := 0;
    while i < |allowed|
      invariant i <= |allowed|
      invariant posFound == if i < |pos| then i else if |pos| <= |allowed| then |pos| else i
      invariant kwsFound == if i <= |pos| then 0 else Found(names[..i - |pos|], keys)
      invariant forall j :: 0 <= j < i ==> SlotFits(pos, kws, allowed, j) && out[j] == Slot(pos, kws, allowed, j)
    {
      var given: Obj;
      if i < |pos| {
        if allowed[i].kwOnly {
          OneMisfit(pos, kws, allowed, i);
          return Some(ExtraPositional);
        }
        posFound := posFound + 1;
        given := pos[i];
      } else {
        FoundNext(names, keys, i - |pos|);
        KeysAre(kws, allowed[i].name);
        var kw := Lookup(kws, allowed[i].name);
        if kw.None? {
          if allowed[i].required {
            OneMisfit(pos, kws, allowed, i);
            return Some(ArgumentRequired(allowed[i].name));
          }
          out[i] := allowed[i].defval;
          i := i + 1;
          continue;
        }
        kwsFound := kwsFound + 1;
        given := kw.value;
      }
      match allowed[i].kind {
        case BoolKind => out[i] := BoolVal(given.truth);
        case IntKind =>
          if given.number.None? {
            OneMisfit(pos, kws, allowed, i);
            return Some(NotAnInteger(allowed[i].name));
          }
          out[i] := IntVal(given.number.value);
        case ObjKind => out[i] := ObjVal(given);
      }
      i := i + 1;
    }
    if posFound < |pos| {
      return Some(ExtraPositional);
    }
    assert names[..|names|] == names;
    if kwsFound < |kws| {
      return Some(ExtraKeyword);
    }
    return None;
  }

  // ----- counting the keywords is enough

  function ToSet(s: seq<nat>): set<nat> {
    set x | x in s
  }

  /** A sequence has as many elements as its set exactly when they are distinct. */
  lemma {:induction false} SetOfSeq(s: seq<nat>)
    ensures |ToSet(s)| <= |s|
    ensures |ToSet(s)| == |s| <==> Distinct(s)
    decreases |s|
  {
    if s != [] {
      var (init, last) := (s[..|s| - 1], s[|s| - 1]);
      SetOfSeq(init);
      assert ToSet(s) == ToSet(init) + {last};
      if last in init {
        var i :| 0 <= i < |init| && init[i] == last;
        assert s[i] == s[|s| - 1];
        assert ToSet(s) == ToSet(init);
      } else {
        DistinctLonger(init, last);
        assert s == init + [last];
      }
    }
  }

  lemma DistinctLonger(init: seq<nat>, last: nat)
    requires last !in init
    ensures Distinct(init + [last]) <==> Distinct(init)
  {
    var s := init + [last];
    if Distinct(s) {
      forall i, j | 0 <= i < j < |init|
        ensures init[i] != init[j]
      {
        assert s[i] != s[j];
      }
    }
  }

  /** With distinct names, those found are as many as names and keys have in common. */
  lemma {:induction false} FoundInCommon(names: seq<nat>, keys: seq<nat>)
    requires Distinct(names)
    ensures Found(names, keys) == |ToSet(names) * ToSet(keys)|
    decreases |names|
  {
    if names != [] {
      var (init, last) := (names[..|names| - 1], names[|names| - 1]);
      FoundInCommon(init, keys);
      var (n, k) := (ToSet(init), ToSet(keys));
      assert last !in n && (last in k <==> last in keys);
      assert ToSet(names) == n + {last};
      OneMoreInCommon(n, k, last);
      hide ToSet;
    }
  }

  lemma OneMoreInCommon(n: set<nat>, k: set<nat>, x: nat)
    requires x !in n
    ensures |(n + {x}) * k| == |n * k| + if x in k then 1 else 0
  {
    assert (n + {x}) * k == if x in k then n * k + {x} else n * k;
  }

  lemma SubsetOfSameSize(x: set<nat>, y: set<nat>)
    requires x <= y && |x| == |y|
    ensures x == y
  {
    assert y == x + (y - x);
  }

  lemma SmallerSubset(x: set<nat>, y: set<nat>)
    requires x <= y
    ensures |x| <= |y|
  {
    assert y == x + (y - x);
  }

  /** The comparison of the two counts at the end is the pigeonhole argument: as many names were found as
      there are keywords if and only if every keyword names a parameter still free, each a different one. */
  lemma CountingIsMatching(names: seq<nat>, keys: seq<nat>)
    requires Distinct(names)
    ensures Found(names, keys) >= |keys| <==> KeywordsMatch(names, keys)
  {
    var (n, k) := (ToSet(names), ToSet(keys));
    FoundInCommon(names, keys);
    SetOfSeq(keys);
    SmallerSubset(n * k, k);
    if Found(names, keys) >= |keys| {
      SubsetOfSameSize(n * k, k);
      forall x | x in keys
        ensures x in names
      {
        assert x in k;
      }
    }
    if KeywordsMatch(names, keys) {
      assert n * k == k;
    }
  }

  /** A call is accepted exactly when it is a valid binding, if the names of the parameters that can be
      given by keyword are distinct. */
  lemma AcceptedIffValid(pos: seq<Obj>, kws: seq<Keyword>, allowed: seq<Arg>)
    requires Distinct(Names(pos, allowed))
    ensures Accepted(pos, kws, allowed) <==> ValidBinding(pos, kws, allowed)
  {
    CountingIsMatching(Names(pos, allowed), Keys(kws));
    hide SlotsFit;
  }

  // ----- what a call binds, and what it complains about

  /** The object, taken as a parameter of the kind. */
  predicate Represents(v: Val, kind: Kind, o: Obj) {
    match v
    case BoolVal(b) => kind == BoolKind && b == o.truth
    case IntVal(n) => kind == IntKind && o.number == Some(n)
    case ObjVal(x) => kind == ObjKind && x == o
  }

  lemma ConvertRepresents(kind: Kind, o: Obj)
    ensures Convert(kind, o).Some? <==> !(kind == IntKind && o.number.None?)
    ensures Convert(kind, o).Some? ==> Represents(Convert(kind, o).value, kind, o)
  {
  }

  /** Distinct keys are looked up wherever they stand. */
  lemma {:induction false} LookupFinds(kws: seq<Keyword>, k: Keyword)
    requires k in kws && Distinct(Keys(kws))
    ensures Lookup(kws, k.key) == Some(k.value)
    decreases |kws|
  {
    if kws[0] != k {
      var i :| 0 <= i < |kws| && kws[i] == k;
      assert Keys(kws)[0] != Keys(kws)[i];
      assert kws[1..][i - 1] == k;
      TailDistinct(kws);
      LookupFinds(kws[1..], k);
    }
  }

  lemma TailDistinct(kws: seq<Keyword>)
    requires kws != [] && Distinct(Keys(kws))
    ensures Distinct(Keys(kws[1..]))
  {
    forall i, j | 0 <= i < j < |kws[1..]|
      ensures Keys(kws[1..])[i] != Keys(kws[1..])[j]
    {
      assert Keys(kws)[i + 1] != Keys(kws)[j + 1];
    }
  }

  /** A valid call binds each parameter to what its position holds, or else to what the keyword of its name
      gives, or else to its default, which it then has; always as a value of its kind. */
  lemma BoundAsGiven(pos: seq<Obj>, kws: seq<Keyword>, allowed: seq<Arg>, i: nat)
    requires ValidBinding(pos, kws, allowed) && i < |allowed|
    ensures SlotFits(pos, kws, allowed, i)
    ensures i < |pos| ==> Represents(Slot(pos, kws, allowed, i), allowed[i].kind, pos[i])
    ensures i >= |pos| ==> forall k :: k in kws && k.key == allowed[i].name ==>
              Represents(Slot(pos, kws, allowed, i), allowed[i].kind, k.value)
    ensures i >= |pos| && (forall k :: k in kws ==> k.key != allowed[i].name) ==>
              !allowed[i].required && Slot(pos, kws, allowed, i) == allowed[i].defval
  {
    assert SlotFits(pos, kws, allowed, i);
    hide Represents, Convert;
    if i < |pos| {
      ConvertRepresents(allowed[i].kind, pos[i]);
    } else {
      forall k | k in kws && k.key == allowed[i].name
        ensures Represents(Slot(pos, kws, allowed, i), allowed[i].kind, k.value)
      {
        LookupFinds(kws, k);
        ConvertRepresents(allowed[i].kind, k.value);
      }
    }
  }

  /** The parameter was given an object that is no integer. */
  predicate GivenNoInteger(pos: seq<Obj>, kws: seq<Keyword>, allowed: seq<Arg>, i: nat)
    requires i < |allowed|
  {
    if i < |pos| then pos[i].number.None? else exists k :: k in kws && k.key == allowed[i].name && k.value.number.None?
  }

  lemma {:induction false} LookupIsEntry(kws: seq<Keyword>, key: nat)
    requires Lookup(kws, key).Some?
    ensures Keyword(key, Lookup(kws, key).value) in kws
    decreases |kws|
  {
    if kws[0].key != key {
      LookupIsEntry(kws[1..], key);
    }
  }

  /** What a parameter that does not fit is blamed for is what is wrong with it. */
  lemma BlamedForWhatIsWrong(pos: seq<Obj>, kws: seq<Keyword>, allowed: seq<Arg>, i: nat)
    requires i < |allowed| && !SlotFits(pos, kws, allowed, i)
    ensures match SlotError(pos, kws, allowed, i)
            case ExtraPositional => i < |pos| && allowed[i].kwOnly
            case ArgumentRequired(name) =>
              && name == allowed[i].name && allowed[i].required
              && i >= |pos| && forall k :: k in kws ==> k.key != allowed[i].name
            case NotAnInteger(name) =>
              && name == allowed[i].name && allowed[i].kind == IntKind
              && GivenNoInteger(pos, kws, allowed, i) && (i < |pos| ==> !allowed[i].kwOnly)
            case ExtraKeyword => false
  {
    var given := Given(pos, kws, allowed, i);
    if i >= |pos| && given.Some? {
      LookupIsEntry(kws, allowed[i].name);
      assert Keyword(allowed[i].name, given.value).value == given.value;
    }
    if given.Some? {
      ConvertRepresents(allowed[i].kind, given.value);
    }
    hide Convert, Lookup;
  }

  /** When every parameter fits, too many positions are what is complained about first, and a stray keyword
      only when there are not. */
  lemma SurplusIsNamed(pos: seq<Obj>, kws: seq<Keyword>, allowed: seq<Arg>)
    requires Distinct(Names(pos, allowed))
    ensures Surplus(pos, kws, allowed) == Some(ExtraPositional) <==> |pos| > |allowed|
    ensures Surplus(pos, kws, allowed) == Some(ExtraKeyword) <==>
              |pos| <= |allowed| && !KeywordsMatch(Names(pos, allowed), Keys(kws))
  {
    CountingIsMatching(Names(pos, allowed), Keys(kws));
    hide KeywordsMatch, Found;
  }

  // ----- and needs distinct names

  lemma {:induction false} AbsentFrom(names: seq<nat>) returns (n: nat)
    ensures n !in names
    ensures forall x :: x in names ==> x < n
    decreases |names|
  {
    if names == [] {
      n := 0;
    } else {
      var m := AbsentFrom(names[1..]);
      n := if names[0] >= m then names[0] + 1 else m;
      assert forall x :: x in names ==> x == names[0] || x in names[1..];
    }
  }

  /** When all names are keys, all are found. */
  lemma {:induction false} AllFound(names: seq<nat>, keys: seq<nat>)
    requires forall k :: k in names ==> k in keys
    ensures Found(names, keys) == |names|
    decreases |names|
  {
    if names != [] {
      AllFound(names[..|names| - 1], keys);
    }
  }

  /** Every name but the repetition at `j`, and one that is none. */
  function Confused(names: seq<nat>, j: nat, stray: nat): (keys: seq<nat>)
    requires j < |names|
    ensures |keys| == |names|
  {
    names[..j] + names[j + 1..] + [stray]
  }

  lemma ConfusedCounts(names: seq<nat>, i: nat, j: nat, stray: nat)
    requires i < j < |names| && names[i] == names[j] && stray !in names
    ensures var keys := Confused(names, j, stray);
            && (forall k :: k in names ==> k in keys)
            && Found(names, keys) == |keys| && !KeywordsMatch(names, keys)
  {
    var keys := Confused(names, j, stray);
    forall k | k in names
      ensures k in keys
    {
      var m :| 0 <= m < |names| && names[m] == k;
      var n := if m == j then i else m;
      assert k == if n < j then keys[n] else keys[n - 1];
    }
    AllFound(names, keys);
    assert keys[|keys| - 1] == stray;
  }

  /** Names that are not distinct break the count: every name but a repetition, and a key that is none, are
      as many keys as there are names found. */
  lemma CountingNeedsDistinctNames(names: seq<nat>)
    ensures Distinct(names) <==> forall keys: seq<nat> :: Found(names, keys) >= |keys| <==> KeywordsMatch(names, keys)
  {
    if Distinct(names) {
      forall keys: seq<nat>
        ensures Found(names, keys) >= |keys| <==> KeywordsMatch(names, keys)
      {
        CountingIsMatching(names, keys);
      }
    } else {
      var i, j :| 0 <= i < j < |names| && names[i] == names[j];
      var stray := AbsentFrom(names);
      ConfusedCounts(names, i, j, stray);
      hide KeywordsMatch, Found;
      assert Found(names, Confused(names, j, stray)) >= |Confused(names, j, stray)|;
    }
  }

  // ----- what that means for calls

  /** An object that is of every kind. */
  const INTEGER := Obj(0, false, Some(0))

  function Integers(keys: seq<nat>): (kws: seq<Keyword>)
    ensures |kws| == |keys| && Keys(kws) == keys && forall k :: k in kws ==> k.value == INTEGER
  {
    seq<Keyword>(|keys|, i requires 0 <= i < |keys| => Keyword(keys[i], INTEGER))
  }

  lemma {:induction false} LookupGives(kws: seq<Keyword>, key: nat)
    requires forall k: Keyword :: k in kws ==> k.value == INTEGER
    ensures Lookup(kws, key).Some? ==> Lookup(kws, key).value == INTEGER
    decreases |kws|
  {
    if kws != [] {
      assert kws[0] in kws && forall k: Keyword :: k in kws[1..] ==> k in kws;
      LookupGives(kws[1..], key);
    }
  }

  /** The positional arguments fit their parameters, whatever the keywords are. */
  predicate PositionsFit(pos: seq<Obj>, allowed: seq<Arg>) {
    |pos| <= |allowed| && forall i :: 0 <= i < |pos| ==> !allowed[i].kwOnly && Convert(allowed[i].kind, pos[i]).Some?
  }

  lemma IntegersFit(pos: seq<Obj>, allowed: seq<Arg>, keys: seq<nat>)
    requires PositionsFit(pos, allowed) && forall k :: k in Names(pos, allowed) ==> k in keys
    ensures SlotsFit(pos, Integers(keys), allowed)
  {
    var (names, kws) := (Names(pos, allowed), Integers(keys));
    forall i | 0 <= i < |allowed|
      ensures SlotFits(pos, kws, allowed, i)
    {
      if i >= |pos| {
        assert names[i - |pos|] == allowed[i].name && allowed[i].name in names;
        KeysAre(kws, allowed[i].name);
        LookupGives(kws, allowed[i].name);
      }
    }
  }

  lemma MisfitRefused(pos: seq<Obj>, kws: seq<Keyword>, allowed: seq<Arg>)
    ensures SlotsFit(pos, kws, allowed) && |pos| <= |allowed| ==> PositionsFit(pos, allowed)
  {
    if SlotsFit(pos, kws, allowed) && |pos| <= |allowed| {
      forall i | 0 <= i < |pos|
        ensures !allowed[i].kwOnly && Convert(allowed[i].kind, pos[i]).Some?
      {
        assert SlotFits(pos, kws, allowed, i);
      }
    }
  }

  /** For positional arguments that fit, calls with any keywords are accepted exactly when they are valid if
      and only if the names left for keywords are distinct. A repeated name lets this call through: every
      name but the repetition, and a stray one, each with an integer. */
  lemma CallsNeedDistinctNames(pos: seq<Obj>, allowed: seq<Arg>)
    ensures (forall kws: seq<Keyword> :: Accepted(pos, kws, allowed) <==> ValidBinding(pos, kws, allowed))
       <==> (PositionsFit(pos, allowed) ==> Distinct(Names(pos, allowed)))
  {
    var names := Names(pos, allowed);
    if PositionsFit(pos, allowed) && !Distinct(names) {
      var i, j :| 0 <= i < j < |names| && names[i] == names[j];
      var stray := AbsentFrom(names);
      var keys := Confused(names, j, stray);
      ConfusedCounts(names, i, j, stray);
      IntegersFit(pos, allowed, keys);
      hide SlotsFit, KeywordsMatch, Found, Distinct, PositionsFit;
      assert Accepted(pos, Integers(keys), allowed) && !ValidBinding(pos, Integers(keys), allowed);
    } else {
      forall kws: seq<Keyword>
        ensures Accepted(pos, kws, allowed) <==> ValidBinding(pos, kws, allowed)
      {
        MisfitRefused(pos, kws, allowed);
        if Distinct(names) {
          AcceptedIffValid(pos, kws, allowed);
        }
      }
    }
  }
}
