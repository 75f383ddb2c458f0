/** The Packages index as a database: keyed updates over a sequence of stanzas, what a series of
    them amounts to, and the order in which the index is written. */
module PackageIndex {
  import opened Text
  import opened VersionOrder
  import opened Stanzas

  datatype Key = Key(package: string, architecture: string, version: string)

  function KeyOf(s: Stanza): Key {
    Key(s.control.package, s.control.architecture, s.control.version)
  }

  /** Package and architecture, the identity when versions are not preserved. */
  function NameOf(s: Stanza): (string, string) {
    (s.control.package, s.control.architecture)
  }

  // ----- keyed updates -----

  /** The first position of the key, or the length. */
  function Position(idx: seq<Stanza>, k: Key): (i: nat)
    ensures i <= |idx| && (i < |idx| ==> KeyOf(idx[i]) == k)
    ensures forall j :: 0 <= j < i ==> KeyOf(idx[j]) != k
  {
    if idx == [] || KeyOf(idx[0]) == k then 0 else 1 + Position(idx[1..], k)
  }

  function Upsert(idx: seq<Stanza>, s: Stanza): seq<Stanza> {
    var i := Position(idx, KeyOf(s));
    if i < |idx| then idx[i := s] else idx + [s]
  }

  /** The filtering loop: s takes the place of the first stanza of its name, later ones go. */
  function ReplaceIn(idx: seq<Stanza>, s: Stanza, replaced: bool): seq<Stanza> {
    if idx == [] then (if replaced then [] else [s])
    else if NameOf(idx[0]) != NameOf(s) then [idx[0]] + ReplaceIn(idx[1..], s, replaced)
    else if replaced then ReplaceIn(idx[1..], s, true)
    else [s] + ReplaceIn(idx[1..], s, true)
  }

  function AddOrUpdate(idx: seq<Stanza>, s: Stanza, preserve: bool): seq<Stanza> {
    if preserve then Upsert(idx, s) else ReplaceIn(idx, s, false)
  }

  function AddAll(idx: seq<Stanza>, batch: seq<Stanza>, preserve: bool): seq<Stanza>
    decreases |batch|
  {
    if batch == [] then idx else AddAll(AddOrUpdate(idx, batch[0], preserve), batch[1..], preserve)
  }

  /** What Remove is asked for: an empty version stands for every version. */
  predicate IsAsked(s: Stanza, name: string, version: string) {
    s.control.package == name && (version == "" || s.control.version == version)
  }

  function Without(idx: seq<Stanza>, name: string, version: string): seq<Stanza> {
    if idx == [] then []
    else if IsAsked(idx[0], name, version) then Without(idx[1..], name, version)
    else [idx[0]] + Without(idx[1..], name, version)
  }

  predicate Increasing(kept: seq<nat>) {
    forall i, j :: 0 <= i < j < |kept| ==> kept[i] < kept[j]
  }

  lemma ShiftIncreasing(rest: seq<nat>, shifted: seq<nat>)
    requires Increasing(rest) && |shifted| == |rest| && forall i :: 0 <= i < |rest| ==> shifted[i] == rest[i] + 1
    ensures Increasing(shifted) && Increasing([0] + shifted)
  {
  }

  /** Exactly the stanzas asked for go, and the others stay in their order: kept lists their places. */
  lemma {:induction false} RemoveLaws(idx: seq<Stanza>, name: string, version: string) returns (kept: seq<nat>)
    ensures |kept| == |Without(idx, name, version)|
    ensures forall i :: 0 <= i < |kept| ==> kept[i] < |idx| && Without(idx, name, version)[i] == idx[kept[i]]
    ensures Increasing(kept)
    ensures forall k :: 0 <= k < |idx| ==>
      (k in kept <==> idx[k].control.package != name || (version != "" && idx[k].control.version != version))
  {
    kept := [];
    if idx != [] {
      var rest := RemoveLaws(idx[1..], name, version);
      var shifted := seq(|rest|, i requires 0 <= i < |rest| => rest[i] + 1);
      kept := if IsAsked(idx[0], name, version) then shifted else [0] + shifted;
      forall k | 0 <= k < |idx|
        ensures k in kept
           <==> idx[k].control.package != name || (version != "" && idx[k].control.version != version)
      {
        ShiftedMember(rest, shifted, k);
        if k > 0 { assert idx[1..][k - 1] == idx[k]; }
      }
      ShiftIncreasing(rest, shifted);
      KeptPlaces(idx, Without(idx[1..], name, version), rest, shifted);
    }
  }

  lemma KeptPlaces(idx: seq<Stanza>, without: seq<Stanza>, rest: seq<nat>, shifted: seq<nat>)
    requires idx != [] && |shifted| == |rest| == |without|
    requires forall i :: 0 <= i < |rest| ==>
        shifted[i] == rest[i] + 1 && rest[i] < |idx| - 1 && without[i] == idx[1..][rest[i]]
    ensures forall i :: 0 <= i < |shifted| ==> shifted[i] < |idx| && without[i] == idx[shifted[i]]
    ensures forall i :: 0 <= i <= |shifted| ==>
      ([0] + shifted)[i] < |idx| && ([idx[0]] + without)[i] == idx[([0] + shifted)[i]]
  {
  }

  lemma ShiftedMember(rest: seq<nat>, shifted: seq<nat>, k: nat)
    requires |shifted| == |rest| && forall i :: 0 <= i < |rest| ==> shifted[i] == rest[i] + 1
    ensures k in shifted <==> k > 0 && k - 1 in rest
  {
    if k > 0 && k - 1 in rest {
      var i :| 0 <= i < |rest| && rest[i] == k - 1;
      assert shifted[i] == k;
    }
  }

  // ----- versions preserved -----

  /** A key is there when a stanza of this package, architecture and version is. */
  lemma KeysAre(idx: seq<Stanza>, package: string, architecture: string, version: string)
    ensures Key(package, architecture, version) in Keys(idx)
       <==> exists s :: s in idx && s.control.package == package && s.control.architecture == architecture
                        && s.control.version == version
  {
    if exists s :: s in idx && s.control.package == package && s.control.architecture == architecture
                   && s.control.version == version {
      var s :| s in idx && s.control.package == package && s.control.architecture == architecture
               && s.control.version == version;
      assert KeyOf(s) in Keys(idx);
    }
  }

  predicate UniqueKeys(idx: seq<Stanza>) {
    forall i, j :: 0 <= i < j < |idx| ==> KeyOf(idx[i]) != KeyOf(idx[j])
  }

  function Keys(idx: seq<Stanza>): set<Key> {
    set s | s in idx :: KeyOf(s)
  }

  function Find(idx: seq<Stanza>, k: Key): Option<Stanza> {
    var i := Position(idx, k);
    if i < |idx| then Some(idx[i]) else None
  }

  /** The last stanza of the batch with the key. */
  function LastWith(batch: seq<Stanza>, k: Key): (r: Option<Stanza>)
    ensures r.Some? ==> r.value in batch && KeyOf(r.value) == k
    ensures r.None? ==> forall s :: s in batch ==> KeyOf(s) != k
  {
    if batch == [] then None
    else if KeyOf(batch[|batch| - 1]) == k then Some(batch[|batch| - 1])
    else LastWith(batch[..|batch| - 1], k)
  }

  function Or(a: Option<Stanza>, b: Option<Stanza>): Option<Stanza> {
    if a.Some? then a else b
  }

  lemma PositionIs(idx: seq<Stanza>, k: Key, i: nat)
    requires i <= |idx| && (i < |idx| ==> KeyOf(idx[i]) == k)
    requires forall j :: 0 <= j < i ==> KeyOf(idx[j]) != k
    ensures Position(idx, k) == i
  {
  }

  lemma UpsertFind(idx: seq<Stanza>, s: Stanza, k: Key)
    ensures Find(Upsert(idx, s), k) == if k == KeyOf(s) then Some(s) else Find(idx, k)
  {
    var r := Upsert(idx, s);
    var i := Position(idx, k);
    if k == KeyOf(s) || i < |idx| { PositionIs(r, k, i); } else { PositionIs(r, k, |r|); }
  }

  lemma UpsertKeys(idx: seq<Stanza>, s: Stanza)
    ensures Keys(Upsert(idx, s)) == Keys(idx) + {KeyOf(s)}
    ensures UniqueKeys(idx) ==> UniqueKeys(Upsert(idx, s))
  {
    var r := Upsert(idx, s);
    var i := Position(idx, KeyOf(s));
    assert r[i] == s;
    forall k | k in Keys(idx) + {KeyOf(s)} ensures k in Keys(r) {
      if k != KeyOf(s) {
        var x :| x in idx && KeyOf(x) == k;
        var j :| 0 <= j < |idx| && idx[j] == x;
        assert r[j] == x;
      }
    }
  }

  lemma {:induction false} LastWithCons(s: Stanza, batch: seq<Stanza>, k: Key)
    ensures LastWith([s] + batch, k) == Or(LastWith(batch, k), if KeyOf(s) == k then Some(s) else None)
  {
    var all := [s] + batch;
    if batch != [] {
      assert all[..|all| - 1] == [s] + batch[..|batch| - 1];
      LastWithCons(s, batch[..|batch| - 1], k);
    }
  }

  lemma {:induction false} AddAllKeys(idx: seq<Stanza>, batch: seq<Stanza>)
    ensures UniqueKeys(idx) ==> UniqueKeys(AddAll(idx, batch, true))
    ensures Keys(AddAll(idx, batch, true)) == Keys(idx) + Keys(batch)
    decreases |batch|
  {
    if batch != [] {
      assert batch == [batch[0]] + batch[1..];
      UpsertKeys(idx, batch[0]);
      AddAllKeys(Upsert(idx, batch[0]), batch[1..]);
      assert Keys(batch) == {KeyOf(batch[0])} + Keys(batch[1..]);
    }
  }

  lemma {:induction false} AddAllFind(idx: seq<Stanza>, batch: seq<Stanza>, k: Key)
    ensures Find(AddAll(idx, batch, true), k) == Or(LastWith(batch, k), Find(idx, k))
    decreases |batch|
  {
    if batch != [] {
      assert batch == [batch[0]] + batch[1..];
      UpsertFind(idx, batch[0], k);
      LastWithCons(batch[0], batch[1..], k);
      AddAllFind(Upsert(idx, batch[0]), batch[1..], k);
    }
  }

  /** With versions preserved, any series of updates keeps keys unique, adds exactly the inserted
      keys, and for every key the last inserted stanza wins. */
  lemma UpdateLaws(idx: seq<Stanza>, batch: seq<Stanza>)
    ensures UniqueKeys(idx) ==> UniqueKeys(AddAll(idx, batch, true))
    ensures Keys(AddAll(idx, batch, true)) == Keys(idx) + Keys(batch)
    ensures forall k :: Find(AddAll(idx, batch, true), k) == Or(LastWith(batch, k), Find(idx, k))
  {
    AddAllKeys(idx, batch);
    forall k ensures Find(AddAll(idx, batch, true), k) == Or(LastWith(batch, k), Find(idx, k)) {
      AddAllFind(idx, batch, k);
    }
  }

  /** Overwriting present keys leaves every key where it is. */
  lemma UpsertPresent(idx: seq<Stanza>, s: Stanza)
    requires KeyOf(s) in Keys(idx)
    ensures var q := Upsert(idx, s);
      && |q| == |idx|
      && (forall i :: 0 <= i < |idx| ==> KeyOf(q[i]) == KeyOf(idx[i]))
      && (forall i :: 0 <= i < |idx| && Position(idx, KeyOf(idx[i])) != i ==> q[i] == idx[i])
  {
    KeyPresent(idx, KeyOf(s));
  }

  lemma SamePositions(idx: seq<Stanza>, q: seq<Stanza>, k: Key)
    requires |q| == |idx| && forall i :: 0 <= i < |idx| ==> KeyOf(q[i]) == KeyOf(idx[i])
    ensures Position(q, k) == Position(idx, k)
  {
    PositionIs(q, k, Position(idx, k));
  }

  /** Overwriting present keys leaves every key where it is. */
  lemma {:induction false} OverwriteInPlace(idx: seq<Stanza>, batch: seq<Stanza>)
    requires Keys(batch) <= Keys(idx)
    ensures var r := AddAll(idx, batch, true);
      && |r| == |idx|
      && (forall i :: 0 <= i < |idx| ==> KeyOf(r[i]) == KeyOf(idx[i]))
      && (forall i :: 0 <= i < |idx| && Position(idx, KeyOf(idx[i])) != i ==> r[i] == idx[i])
    decreases |batch|
  {
    if batch != [] {
      var s, rest := batch[0], batch[1..];
      assert batch == [s] + rest;
      assert KeyOf(s) in Keys(batch);
      var q := Upsert(idx, s);
      UpsertPresent(idx, s);
      UpsertKeys(idx, s);
      OverwriteInPlace(q, rest);
      forall i | 0 <= i < |idx| ensures Position(q, KeyOf(idx[i])) == Position(idx, KeyOf(idx[i])) {
        SamePositions(idx, q, KeyOf(idx[i]));
      }
    }
  }

  lemma KeyPresent(idx: seq<Stanza>, k: Key)
    ensures k in Keys(idx) <==> Position(idx, k) < |idx|
  {
    var i := Position(idx, k);
    if i < |idx| { assert idx[i] in idx; }
  }

  /** Replaying a whole series of updates changes nothing. */
  lemma Replay(idx: seq<Stanza>, batch: seq<Stanza>)
    ensures AddAll(AddAll(idx, batch, true), batch, true) == AddAll(idx, batch, true)
  {
    var once := AddAll(idx, batch, true);
    var twice := AddAll(once, batch, true);
    UpdateLaws(idx, batch);
    UpdateLaws(once, batch);
    OverwriteInPlace(once, batch);
    forall i | 0 <= i < |once| ensures twice[i] == once[i] {
      var k := KeyOf(once[i]);
      if Position(once, k) == i {
        PositionIs(twice, k, i);
        assert Find(twice, k) == Or(LastWith(batch, k), Find(once, k));
        assert Find(once, k) == Or(LastWith(batch, k), Find(idx, k));
      }
    }
  }

  /** The same from an empty index, as the laws are usually needed. */
  lemma FromEmpty(batch: seq<Stanza>)
    ensures var r := AddAll([], batch, true);
      UniqueKeys(r) && Keys(r) == Keys(batch) && forall k :: Find(r, k) == LastWith(batch, k)
  {
    UpdateLaws([], batch);
    assert Keys([]) == {};
  }

  // ----- versions not preserved -----

  function WithName(idx: seq<Stanza>, n: (string, string)): seq<Stanza> {
    if idx == [] then []
    else if NameOf(idx[0]) == n then [idx[0]] + WithName(idx[1..], n)
    else WithName(idx[1..], n)
  }

  /** Of this package and architecture. */
  lemma {:induction false} NamedAre(idx: seq<Stanza>, package: string, architecture: string, s: Stanza)
    ensures s in WithName(idx, (package, architecture))
       <==> s in idx && s.control.package == package && s.control.architecture == architecture
  {
    if idx != [] {
      assert idx == [idx[0]] + idx[1..];
      NamedAre(idx[1..], package, architecture, s);
    }
  }

  function Untouched(idx: seq<Stanza>, touched: set<(string, string)>): seq<Stanza> {
    if idx == [] then []
    else if NameOf(idx[0]) in touched then Untouched(idx[1..], touched)
    else [idx[0]] + Untouched(idx[1..], touched)
  }

  function Names(idx: seq<Stanza>): set<(string, string)> {
    set s | s in idx :: NameOf(s)
  }

  lemma ConsSeq(s: Stanza, rest: seq<Stanza>)
    ensures ([s] + rest)[0] == s && ([s] + rest)[1..] == rest
  {
  }

  lemma {:induction false} ReplaceKeepsOthers(idx: seq<Stanza>, s: Stanza, replaced: bool,
                                              touched: set<(string, string)>)
    requires NameOf(s) in touched
    ensures Untouched(ReplaceIn(idx, s, replaced), touched) == Untouched(idx, touched)
  {
    if idx != [] {
      var next := replaced || NameOf(idx[0]) == NameOf(s);
      ReplaceKeepsOthers(idx[1..], s, next, touched);
      ConsSeq(idx[0], ReplaceIn(idx[1..], s, next));
      ConsSeq(s, ReplaceIn(idx[1..], s, next));
    }
  }

  lemma {:induction false} ReplaceLeavesOne(idx: seq<Stanza>, s: Stanza, replaced: bool, n: (string, string))
    ensures WithName(ReplaceIn(idx, s, replaced), n)
         == if n != NameOf(s) then WithName(idx, n) else if replaced then [] else [s]
  {
    if idx != [] {
      var next := replaced || NameOf(idx[0]) == NameOf(s);
      ReplaceLeavesOne(idx[1..], s, next, n);
      ConsSeq(idx[0], ReplaceIn(idx[1..], s, next));
      ConsSeq(s, ReplaceIn(idx[1..], s, next));
    }
  }

  function LastNamed(batch: seq<Stanza>, n: (string, string)): (r: Option<Stanza>)
    ensures r.None? ==> forall s :: s in batch ==> NameOf(s) != n
    ensures r.Some? ==> exists i :: 0 <= i < |batch| && batch[i] == r.value && NameOf(batch[i]) == n
                          && forall j :: i < j < |batch| ==> NameOf(batch[j]) != n
  {
    if batch == [] then None
    else if NameOf(batch[|batch| - 1]) == n then Some(batch[|batch| - 1])
    else LastNamed(batch[..|batch| - 1], n)
  }

  lemma {:induction false} AddAllSnoc(idx: seq<Stanza>, batch: seq<Stanza>, s: Stanza, preserve: bool)
    ensures AddAll(idx, batch + [s], preserve) == AddOrUpdate(AddAll(idx, batch, preserve), s, preserve)
    decreases |batch|
  {
    var all := batch + [s];
    if batch == [] {
      assert all[1..] == [];
    } else {
      assert all[1..] == batch[1..] + [s];
      AddAllSnoc(AddOrUpdate(idx, batch[0], preserve), batch[1..], s, preserve);
    }
  }

  /** With versions not preserved, a touched name keeps the last stanza of the batch alone, and an
      untouched name keeps its stanzas. */
  lemma {:induction false} ReplaceLaws(idx: seq<Stanza>, batch: seq<Stanza>, n: (string, string))
    ensures WithName(AddAll(idx, batch, false), n)
         == match LastNamed(batch, n) case None => WithName(idx, n) case Some(s) => [s]
    decreases |batch|
  {
    if batch != [] {
      var front, s := batch[..|batch| - 1], batch[|batch| - 1];
      assert batch == front + [s];
      AddAllSnoc(idx, front, s, false);
      ReplaceLaws(idx, front, n);
      ReplaceLeavesOne(AddAll(idx, front, false), s, false, n);
    }
  }

  /** All untouched stanzas stay, in their order. */
  lemma {:induction false} OthersKeepOrder(idx: seq<Stanza>, batch: seq<Stanza>, touched: set<(string, string)>)
    requires Names(batch) <= touched
    ensures Untouched(AddAll(idx, batch, false), touched) == Untouched(idx, touched)
    decreases |batch|
  {
    if batch != [] {
      var s, rest := batch[0], batch[1..];
      assert batch == [s] + rest && NameOf(s) in Names(batch);
      ReplaceKeepsOthers(idx, s, false, touched);
      OthersKeepOrder(ReplaceIn(idx, s, false), rest, touched);
    }
  }

  // ----- orders -----

  /** The order of the written index: name, latest version first, architecture. */
  function CompareKeys(a: Key, b: Key): int {
    var c := Compare(a.package, b.package);
    if c != 0 then c else
    var d := CompareVersions(b.version, a.version);
    if d != 0 then d else Compare(a.architecture, b.architecture)
  }

  function CompareStanzas(a: Stanza, b: Stanza): int {
    CompareKeys(KeyOf(a), KeyOf(b))
  }

  /** The order of a batch: name, architecture, oldest version first. */
  function CompareControls(a: Control, b: Control): int {
    var c := Compare(a.package, b.package);
    if c != 0 then c else
    var d := Compare(a.architecture, b.architecture);
    if d != 0 then d else CompareVersions(a.version, b.version)
  }

  function CompareCandidates(a: Stanza, b: Stanza): int {
    CompareControls(a.control, b.control)
  }

  /** What slices.SortFunc asks of a comparator. */
  predicate StrictWeakOrder(ab: int, ba: int, bc: int, ac: int, aa: int) {
    && aa == 0 && ab == -ba
    && (ab <= 0 && bc <= 0 ==> ac <= 0)
    && (ab < 0 && bc < 0 ==> ac < 0)
    && (ab == 0 ==> ac == bc)
  }

  function Lex(x: int, y: int): int { if x != 0 then x else y }

  lemma LexChain(x1: int, x2: int, x3: int, y1: int, y2: int, y3: int)
    requires Chains(x1, x2, x3) && Chains(y1, y2, y3)
    ensures Chains(Lex(x1, y1), Lex(x2, y2), Lex(x3, y3))
  {
  }

  lemma ChainsAreLegal(ab: int, ba: int, bc: int, cb: int, ac: int, ca: int, aa: int)
    requires aa == 0 && ab == -ba && bc == -cb && ac == -ca && {ab, bc, ac} <= {-1, 0, 1}
    requires Chains(ab, bc, ac) && Chains(ba, ac, bc) && Chains(ca, ab, cb) && Chains(cb, ba, ca)
    ensures StrictWeakOrder(ab, ba, bc, ac, aa)
  {
    assert ab in {ab, bc, ac} && bc in {ab, bc, ac} && ac in {ab, bc, ac};
  }

  lemma TextChain(a: string, b: string, c: string)
    ensures Chains(Compare(a, b), Compare(b, c), Compare(a, c))
  {
    CompareLaws(a, b); CompareLaws(b, c); CompareLaws(a, c);
    if Compare(a, b) <= 0 && Compare(b, c) <= 0 { CompareTransitive(a, b, c); }
  }

  lemma StanzaSymmetry(a: Stanza, b: Stanza)
    ensures CompareStanzas(a, b) == -CompareStanzas(b, a) && CompareStanzas(a, b) in {-1, 0, 1}
    ensures CompareCandidates(a, b) == -CompareCandidates(b, a) && CompareCandidates(a, b) in {-1, 0, 1}
  {
    CompareLaws(a.control.package, b.control.package);
    CompareLaws(a.control.architecture, b.control.architecture);
    CompareSymmetry(a.control.version, b.control.version);
  }

  lemma StanzaChain(a: Stanza, b: Stanza, c: Stanza)
    ensures Chains(CompareStanzas(a, b), CompareStanzas(b, c), CompareStanzas(a, c))
    ensures Chains(CompareCandidates(a, b), CompareCandidates(b, c), CompareCandidates(a, c))
  {
    var x, y, z := a.control, b.control, c.control;
    TextChain(x.package, y.package, z.package);
    TextChain(x.architecture, y.architecture, z.architecture);
    CompareChain(x.version, y.version, z.version);
    CompareChain(z.version, y.version, x.version);
    CompareSymmetry(x.version, y.version);
    CompareSymmetry(y.version, z.version);
    CompareSymmetry(x.version, z.version);
    LexChain(CompareVersions(y.version, x.version), CompareVersions(z.version, y.version),
             CompareVersions(z.version, x.version), Compare(x.architecture, y.architecture),
             Compare(y.architecture, z.architecture), Compare(x.architecture, z.architecture));
    LexChain(Compare(x.architecture, y.architecture), Compare(y.architecture, z.architecture),
             Compare(x.architecture, z.architecture), CompareVersions(x.version, y.version),
             CompareVersions(y.version, z.version), CompareVersions(x.version, z.version));
  }

  /** The comparator of Sort is a legal strict weak order on all stanzas. */
  lemma StanzaOrderIsLegal(a: Stanza, b: Stanza, c: Stanza)
    ensures StrictWeakOrder(CompareStanzas(a, b), CompareStanzas(b, a), CompareStanzas(b, c),
                            CompareStanzas(a, c), CompareStanzas(a, a))
  {
    StanzaSymmetry(a, a); StanzaSymmetry(a, b); StanzaSymmetry(b, c); StanzaSymmetry(a, c);
    StanzaChain(a, b, c); StanzaChain(b, a, c); StanzaChain(c, a, b); StanzaChain(c, b, a);
    ChainsAreLegal(CompareStanzas(a, b), CompareStanzas(b, a), CompareStanzas(b, c), CompareStanzas(c, b),
                   CompareStanzas(a, c), CompareStanzas(c, a), CompareStanzas(a, a));
  }

  /** So is the comparator of the batch sort. */
  lemma CandidateOrderIsLegal(a: Stanza, b: Stanza, c: Stanza)
    ensures StrictWeakOrder(CompareCandidates(a, b), CompareCandidates(b, a), CompareCandidates(b, c),
                            CompareCandidates(a, c), CompareCandidates(a, a))
  {
    StanzaSymmetry(a, a); StanzaSymmetry(a, b); StanzaSymmetry(b, c); StanzaSymmetry(a, c);
    StanzaChain(a, b, c); StanzaChain(b, a, c); StanzaChain(c, a, b); StanzaChain(c, b, a);
    ChainsAreLegal(CompareCandidates(a, b), CompareCandidates(b, a), CompareCandidates(b, c), CompareCandidates(c, b),
                   CompareCandidates(a, c), CompareCandidates(c, a), CompareCandidates(a, a));
  }

  predicate IndexSorted(idx: seq<Stanza>) {
    forall i, j :: 0 <= i < j < |idx| ==> CompareStanzas(idx[i], idx[j]) <= 0
  }

  /** In a written index packages come in byte order, of each the later versions first, and of equal
      versions the architectures in byte order. */
  lemma WrittenOrder(idx: seq<Stanza>, i: nat, j: nat)
    requires IndexSorted(idx) && i < j < |idx|
    ensures var a, b := idx[i].control, idx[j].control;
      && Compare(a.package, b.package) <= 0
      && (a.package == b.package ==> CompareVersions(a.version, b.version) >= 0)
      && (a.package == b.package && CompareVersions(a.version, b.version) == 0 ==>
            Compare(a.architecture, b.architecture) <= 0)
  {
    var a, b := idx[i].control, idx[j].control;
    assert CompareStanzas(idx[i], idx[j]) <= 0;
    CompareLaws(a.package, b.package);
    CompareSymmetry(a.version, b.version);
    CompareLaws(a.architecture, b.architecture);
  }

  /** In batch order packages come in byte order, of each the architectures in byte order, and of
      each name the older versions first. */
  lemma BatchOrder(a: Control, b: Control)
    requires CompareControls(a, b) <= 0
    ensures Compare(a.package, b.package) <= 0
    ensures a.package == b.package ==> Compare(a.architecture, b.architecture) <= 0
    ensures a.package == b.package && a.architecture == b.architecture ==> CompareVersions(a.version, b.version) <= 0
  {
    CompareLaws(a.package, b.package);
    CompareLaws(a.architecture, b.architecture);
  }

  predicate BatchSorted(batch: seq<Stanza>) {
    forall i, j :: 0 <= i < j < |batch| ==> CompareCandidates(batch[i], batch[j]) <= 0
  }

  /** In a sorted batch the last stanza of a name has the latest version of that name. */
  lemma LastIsLatest(batch: seq<Stanza>, s: Stanza, n: (string, string))
    requires BatchSorted(batch) && s in batch && NameOf(s) == n
    ensures LastNamed(batch, n).Some?
    ensures NameOf(LastNamed(batch, n).value) == n
    ensures CompareVersions(s.control.version, LastNamed(batch, n).value.control.version) <= 0
  {
    var last := LastNamed(batch, n).value;
    var i :| 0 <= i < |batch| && batch[i] == last && NameOf(batch[i]) == n
             && forall j :: i < j < |batch| ==> NameOf(batch[j]) != n;
    var j :| 0 <= j < |batch| && batch[j] == s;
    CompareLaws(s.control.package, s.control.package);
    CompareLaws(s.control.architecture, s.control.architecture);
    TotalPreorder(s.control.version, s.control.version, s.control.version);
    if j < i { assert CompareCandidates(batch[j], batch[i]) <= 0; }
  }

  /** A publish without preserved versions: one stanza per touched name, the latest of the batch;
      every other name keeps its stanzas, in order. */
  lemma LatestReplaces(idx: seq<Stanza>, batch: seq<Stanza>)
    requires BatchSorted(batch)
    ensures forall s :: s in batch ==>
      var rest := WithName(AddAll(idx, batch, false), NameOf(s));
      |rest| == 1 && rest[0] in batch && CompareVersions(s.control.version, rest[0].control.version) <= 0
    ensures Untouched(AddAll(idx, batch, false), Names(batch)) == Untouched(idx, Names(batch))
  {
    forall s | s in batch ensures
      var rest := WithName(AddAll(idx, batch, false), NameOf(s));
      |rest| == 1 && rest[0] in batch && CompareVersions(s.control.version, rest[0].control.version) <= 0
    {
      LastIsLatest(batch, s, NameOf(s));
      ReplaceLaws(idx, batch, NameOf(s));
    }
    OthersKeepOrder(idx, batch, Names(batch));
  }
}
