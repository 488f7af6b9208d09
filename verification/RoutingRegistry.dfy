/** Choosing a routing provider: the order of preference, the provider the status
    advertises, and the one that answers. */
module RoutingRegistry {
  import opened Wrappers

  datatype Provider = Google | Mapbox | OSRM

  datatype Mode = Auto | Manual

  /** `provider` is the one to prefer in manual mode; `priority` is as configured. */
  datatype Config = Config(mode: Mode, provider: Option<Provider>, priority: seq<string>)

  type Point = (real, real)

  /** What asking a provider for a route gives. */
  datatype Answer = Failed | Points(points: seq<Point>)

  datatype Result = Result(provider: Provider, points: seq<Point>)

  const DefaultPriority := [Google, Mapbox, OSRM]

  // ---------------------------------------------------------------------------
  // Names
  // ---------------------------------------------------------------------------

  /** The characters Unicode calls white space. */
  predicate Space(c: char) {
    || '\U{0009}' <= c <= '\U{000D}' || '\U{2000}' <= c <= '\U{200A}'
    || c in {' ', '\U{0085}', '\U{00A0}', '\U{1680}', '\U{2028}', '\U{2029}', '\U{202F}', '\U{205F}', '\U{3000}'}
  }

  function Trimmed(s: string): string {
    if s == [] then s
    else if Space(s[0]) then Trimmed(s[1..])
    else if Space(s[|s| - 1]) then Trimmed(s[..|s| - 1])
    else s
  }

  function Lower(s: string): string {
    seq(|s|, i requires 0 <= i < |s| => if 'A' <= s[i] <= 'Z' then s[i] - 'A' + 'a' else s[i])
  }

  function Name(p: Provider): string {
    match p
    case Google => "google"
    case Mapbox => "mapbox"
    case OSRM => "osrm"
  }

  /** An unknown name means OSRM. */
  function NormalizeProviderID(raw: string): Provider {
    var id := Lower(Trimmed(raw));
    if id == Name(Google) then Google
    else if id == Name(Mapbox) then Mapbox
    else OSRM
  }

  lemma NameIsTrimmed(p: Provider)
    ensures Trimmed(Name(p)) == Name(p)
  {
    var s := Name(p);
    assert s[0] in {'g', 'm', 'o'} && s[|s| - 1] in {'e', 'x', 'm'};
  }

  lemma NameIsLower(p: Provider)
    ensures Lower(Name(p)) == Name(p)
  {
    var s := Name(p);
    assert forall i :: 0 <= i < |s| ==> !('A' <= s[i] <= 'Z');
  }

  lemma NamesDiffer()
    ensures |Name(OSRM)| != |Name(Google)| && |Name(OSRM)| != |Name(Mapbox)|
    ensures Name(Google)[0] != Name(Mapbox)[0]
  {
  }

  predicate AllSpace(s: string) {
    forall i :: 0 <= i < |s| ==> Space(s[i])
  }

  /** Trimming takes white space off both ends and nothing else. */
  lemma {:induction false} TrimmedIsBetween(s: string) returns (a: nat, b: nat)
    ensures a <= b <= |s| && Trimmed(s) == s[a..b] && AllSpace(s[..a]) && AllSpace(s[b..])
    decreases |s|
  {
    hide Space;
    if s == [] {
      a, b := 0, 0;
    } else if Space(s[0]) {
      var i, j := TrimmedIsBetween(s[1..]);
      a, b := i + 1, j + 1;
      assert s[..a] == [s[0]] + s[1..][..i] && s[b..] == s[1..][j..] && s[a..b] == s[1..][i..j];
    } else if Space(s[|s| - 1]) {
      var n := |s| - 1;
      a, b := TrimmedIsBetween(s[..n]);
      assert s[..a] == s[..n][..a] && s[b..] == s[..n][b..] + [s[n]] && s[a..b] == s[..n][a..b];
    } else {
      a, b := 0, |s|;
      assert s[0..|s|] == s;
    }
  }

  lemma {:induction false} TrimsTo(s: string, a: nat, b: nat)
    requires a < b <= |s| && AllSpace(s[..a]) && AllSpace(s[b..]) && !Space(s[a]) && !Space(s[b - 1])
    ensures Trimmed(s) == s[a..b]
    decreases |s|
  {
    hide Space;
    if a > 0 {
      assert Space(s[..a][0]);
      assert s[1..][..a - 1] == s[..a][1..] && s[1..][b - 1..] == s[b..] && s[1..][a - 1..b - 1] == s[a..b];
      TrimsTo(s[1..], a - 1, b - 1);
    } else if b < |s| {
      var n := |s| - 1;
      assert Space(s[b..][n - b]) && s[b..][n - b] == s[n];
      assert s[..n][b..] == s[b..][..n - b] && s[..n][a..b] == s[a..b] && s[..n][..0] == s[..0];
      TrimsTo(s[..n], 0, b);
    } else {
      assert s[0..|s|] == s;
    }
  }

  /** Each letter of `s` is that of the name, in lower or in upper case. */
  predicate InEitherCase(s: string, lower: string, upper: string)
    requires |lower| == |upper|
  {
    |s| == |lower| && forall i :: 0 <= i < |s| ==> s[i] == lower[i] || s[i] == upper[i]
  }

  predicate SameLetters(lower: string, upper: string) {
    |lower| == |upper|
    && forall i :: 0 <= i < |lower| ==> 'A' <= upper[i] <= 'Z' && lower[i] == upper[i] - 'A' + 'a'
  }

  lemma LowersTo(s: string, lower: string, upper: string)
    requires SameLetters(lower, upper)
    ensures Lower(s) == lower <==> InEitherCase(s, lower, upper)
  {
    if Lower(s) == lower {
      assert |s| == |Lower(s)|;
      forall i | 0 <= i < |s| ensures s[i] == lower[i] || s[i] == upper[i] {
        assert Lower(s)[i] == lower[i];
      }
    }
    if InEitherCase(s, lower, upper) {
      forall i | 0 <= i < |s| ensures Lower(s)[i] == lower[i] {
      }
    }
  }

  /** White space, the name in any mix of cases, white space. */
  ghost predicate Spells(raw: string, lower: string, upper: string)
    requires |lower| == |upper|
  {
    exists a, b :: 0 <= a <= b <= |raw| && AllSpace(raw[..a]) && AllSpace(raw[b..])
                   && InEitherCase(raw[a..b], lower, upper)
  }

  lemma LettersAreNoSpace(c: char)
    requires 'A' <= c <= 'Z' || 'a' <= c <= 'z'
    ensures !Space(c)
  {
  }

  lemma TrimsAndLowersTo(raw: string, lower: string, upper: string)
    requires SameLetters(lower, upper) && lower != []
    ensures Lower(Trimmed(raw)) == lower <==> Spells(raw, lower, upper)
  {
    hide Trimmed, Lower, Space, AllSpace;
    var a, b := TrimmedIsBetween(raw);
    LowersTo(raw[a..b], lower, upper);
    if Spells(raw, lower, upper) {
      var i, j :| 0 <= i <= j <= |raw| && AllSpace(raw[..i]) && AllSpace(raw[j..])
                  && InEitherCase(raw[i..j], lower, upper);
      LowersTo(raw[i..j], lower, upper);
      assert raw[i..j][0] == raw[i] && raw[i..j][j - i - 1] == raw[j - 1];
      LettersAreNoSpace(raw[i]);
      LettersAreNoSpace(raw[j - 1]);
      TrimsTo(raw, i, j);
    }
  }

  lemma NamesInBothCases()
    ensures SameLetters("google", "GOOGLE") && SameLetters("mapbox", "MAPBOX")
  {
  }

  /** A name is a provider's in any letter case and with any white space around it, and
      every other name is OSRM's. */
  lemma NormalizesExactly(raw: string)
    ensures NormalizeProviderID(raw) == Google <==> Spells(raw, "google", "GOOGLE")
    ensures NormalizeProviderID(raw) == Mapbox <==> Spells(raw, "mapbox", "MAPBOX")
    ensures NormalizeProviderID(raw) == OSRM <==>
            !Spells(raw, "google", "GOOGLE") && !Spells(raw, "mapbox", "MAPBOX")
  {
    NamesInBothCases();
    NamesDiffer();
    hide Trimmed, Lower, SameLetters, Spells;
    TrimsAndLowersTo(raw, "google", "GOOGLE");
    TrimsAndLowersTo(raw, "mapbox", "MAPBOX");
  }

  lemma NameIsNormal(p: Provider)
    ensures NormalizeProviderID(Name(p)) == p
  {
    hide Trimmed, Lower, Name;
    NameIsTrimmed(p);
    NameIsLower(p);
    NamesDiffer();
  }

  // ---------------------------------------------------------------------------
  // The order of preference
  // ---------------------------------------------------------------------------

  function IDs(priority: seq<string>): seq<Provider> {
    seq(|priority|, i requires 0 <= i < |priority| => NormalizeProviderID(priority[i]))
  }

  function Names(ps: seq<Provider>): seq<string> {
    seq(|ps|, i requires 0 <= i < |ps| => Name(ps[i]))
  }

  /** The first occurrences. */
  function Distinct(ps: seq<Provider>): seq<Provider> {
    if ps == [] then []
    else
      var out, p := Distinct(ps[..|ps| - 1]), ps[|ps| - 1];
      if p in out then out else out + [p]
  }

  function Missing(ps: seq<Provider>): seq<Provider> {
    (if Google in ps then [] else [Google])
    + (if Mapbox in ps then [] else [Mapbox])
    + (if OSRM in ps then [] else [OSRM])
  }

  function Normalized(priority: seq<string>): seq<Provider> {
    var listed := Distinct(IDs(priority));
    listed + Missing(listed)
  }

  function Order(cfg: Config): seq<Provider> {
    Distinct((if cfg.mode == Manual && cfg.provider.Some? then [cfg.provider.value] else [])
             + Normalized(cfg.priority))
  }

  lemma DistinctStep(ps: seq<Provider>, i: nat)
    requires i < |ps|
    ensures var out := Distinct(ps[..i]);
            Distinct(ps[..i + 1]) == if ps[i] in out then out else out + [ps[i]]
  {
    assert ps[..i + 1][..i] == ps[..i];
  }

  method NormalizePriority(priority: seq<string>) returns (out: seq<Provider>)
    ensures out == Normalized(priority)
  {
    var seen: set<Provider> := {};
    out := [];
    ghost var ids := IDs(priority);
    for i := 0 to |priority|
      invariant out == Distinct(ids[..i])
      invariant forall p :: p in seen <==> p in out
    {
      DistinctStep(ids, i);
      var id := NormalizeProviderID(priority[i]);
      if id !in seen {
        seen := seen + {id};
        out := out + [id];
      }
    }
    assert ids[..|ids|] == ids;
    ghost var listed := out;
    for i := 0 to 3
      invariant i == 0 ==> out == listed
      invariant i == 1 ==> out == listed + if Google in listed then [] else [Google]
      invariant i == 2 ==> out == listed + (if Google in listed then [] else [Google])
                                  + if Mapbox in listed then [] else [Mapbox]
      invariant i == 3 ==> out == listed + Missing(listed)
    {
      var id := DefaultPriority[i];
      if id !in seen {
        out := out + [id];
      }
    }
  }

  method ProviderOrder(cfg: Config) returns (out: seq<Provider>)
    ensures out == Order(cfg)
  {
    var order: seq<Provider> := [];
    if cfg.mode == Manual && cfg.provider.Some? {
      order := [cfg.provider.value];
    }
    var normal := NormalizePriority(cfg.priority);
    order := order + normal;
    var seen: set<Provider> := {};
    out := [];
    for i := 0 to |order|
      invariant out == Distinct(order[..i])
      invariant forall p :: p in seen <==> p in out
    {
      DistinctStep(order, i);
      if order[i] !in seen {
        seen := seen + {order[i]};
        out := out + [order[i]];
      }
    }
    assert order[..|order|] == order;
  }

  // ---------------------------------------------------------------------------
  // What the order is
  // ---------------------------------------------------------------------------

  predicate Unique(ps: seq<Provider>) {
    forall i, j :: 0 <= i < j < |ps| ==> ps[i] != ps[j]
  }

  /** Each provider exactly once. */
  predicate Complete(ps: seq<Provider>) {
    (forall p: Provider :: p in ps) && Unique(ps)
  }

  lemma UniqueStep(ps: seq<Provider>)
    requires ps != []
    ensures Unique(ps) <==> Unique(ps[..|ps| - 1]) && ps[|ps| - 1] !in ps[..|ps| - 1]
  {
  }

  /** Where `p` first occurs, or the length of the list. */
  function First(ps: seq<Provider>, p: Provider): (i: nat)
    ensures i <= |ps| && p !in ps[..i] && (i < |ps| ==> ps[i] == p)
  {
    if ps == [] then 0
    else if ps[0] == p then 0
    else
      var i := First(ps[1..], p);
      assert p !in ps[1..][..i] && ps[..i + 1] == [ps[0]] + ps[1..][..i];
      i + 1
  }

  /** The place of `p`: where the list first names it, and after the whole list, in
      the default order, when it does not. */
  function Rank(priority: seq<string>, p: Provider): nat {
    var i := First(IDs(priority), p);
    if i < |priority| then i else |priority| + First(DefaultPriority, p)
  }

  predicate Ranked(priority: seq<string>, ps: seq<Provider>) {
    forall i, j :: 0 <= i < j < |ps| ==> Rank(priority, ps[i]) < Rank(priority, ps[j])
  }

  lemma {:induction false} DistinctKeepsFirsts(ps: seq<Provider>)
    ensures forall p: Provider :: p in Distinct(ps) <==> p in ps
    ensures forall i, j :: 0 <= i < j < |Distinct(ps)| ==> First(ps, Distinct(ps)[i]) < First(ps, Distinct(ps)[j])
    decreases |ps|
  {
    if ps != [] {
      var n := |ps| - 1;
      var init, p := ps[..n], ps[n];
      DistinctKeepsFirsts(init);
      assert ps == init + [p];
      forall q ensures First(ps, q) == if q in init then First(init, q) else if q == p then n else n + 1 {
        FirstExtended(init, p, q);
      }
    }
  }

  lemma {:induction false} FirstExtended(ps: seq<Provider>, p: Provider, q: Provider)
    ensures First(ps + [p], q) == if q in ps then First(ps, q) else if q == p then |ps| else |ps| + 1
    decreases |ps|
  {
    if ps == [] {
      assert [] + [p] == [p] && [p][1..] == [];
    } else {
      assert (ps + [p])[1..] == ps[1..] + [p] && ps == [ps[0]] + ps[1..];
      FirstExtended(ps[1..], p, q);
    }
  }

  lemma {:induction false} NotListed(ps: seq<Provider>, p: Provider)
    ensures First(ps, p) < |ps| <==> p in ps
    decreases |ps|
  {
  }

  lemma MissingCompletes(listed: seq<Provider>)
    requires Unique(listed)
    ensures Complete(listed + Missing(listed))
    ensures var rest := Missing(listed);
            && (forall p :: p in rest <==> p !in listed)
            && (forall i, j :: 0 <= i < j < |rest| ==>
                  First(DefaultPriority, rest[i]) < First(DefaultPriority, rest[j]))
  {
    DefaultPlaces();
    hide First;
    var rest := Missing(listed);
    forall p: Provider ensures p in rest <==> p !in listed {
      match p
      case Google => assert p !in listed ==> rest[0] == p;
      case Mapbox => assert p !in listed ==> rest[if Google in listed then 0 else 1] == p;
      case OSRM => assert p !in listed ==> rest[|rest| - 1] == p;
    }
  }

  /** The normal order is a permutation of the three providers, those the list names
      by their first place in it and the others after them in the default order. */
  lemma NormalizedIsRanked(priority: seq<string>)
    ensures Complete(Normalized(priority)) && Ranked(priority, Normalized(priority))
  {
    hide First, Distinct, NormalizeProviderID, Missing, Complete;
    var ids := IDs(priority);
    var listed := Distinct(ids);
    DistinctKeepsFirsts(ids);
    forall p: Provider ensures First(ids, p) < |ids| <==> p in ids { NotListed(ids, p); }
    forall i, j | 0 <= i < j < |listed| ensures listed[i] != listed[j] {
      assert First(ids, listed[i]) < First(ids, listed[j]);
    }
    MissingCompletes(listed);
  }

  lemma DefaultPlaces()
    ensures First(DefaultPriority, Google) == 0
    ensures First(DefaultPriority, Mapbox) == 1
    ensures First(DefaultPriority, OSRM) == 2
  {
  }

  /** No other order is. */
  lemma RankedIsUnique(priority: seq<string>, ps: seq<Provider>)
    requires Complete(ps) && Ranked(priority, ps)
    ensures ps == Normalized(priority)
  {
    hide Rank, Normalized;
    NormalizedIsRanked(priority);
    SortedAgree(ps, Normalized(priority), p => Rank(priority, p));
  }

  lemma NonEmptyHas(ps: seq<Provider>)
    ensures ps == [] || exists p :: p in ps
  {
    if ps != [] {
      assert ps[0] in ps;
    }
  }

  lemma {:induction false} SortedAgree(ps: seq<Provider>, qs: seq<Provider>, rank: Provider -> nat)
    requires forall p :: p in ps <==> p in qs
    requires forall i, j :: 0 <= i < j < |ps| ==> rank(ps[i]) < rank(ps[j])
    requires forall i, j :: 0 <= i < j < |qs| ==> rank(qs[i]) < rank(qs[j])
    ensures ps == qs
    decreases |ps|
  {
    NonEmptyHas(ps);
    NonEmptyHas(qs);
    if ps != [] {
      assert ps[0] in qs;
      assert qs[0] in ps;
      assert ps[0] == qs[0];
      forall p ensures p in ps[1..] <==> p in qs[1..] {
        assert p in ps <==> p in qs;
      }
      SortedAgree(ps[1..], qs[1..], rank);
    }
  }

  lemma {:induction false} DistinctOfDistinct(ps: seq<Provider>)
    requires Unique(ps)
    ensures Distinct(ps) == ps
    decreases |ps|
  {
    hide Unique;
    if ps != [] {
      UniqueStep(ps);
      DistinctOfDistinct(ps[..|ps| - 1]);
    }
  }

  lemma NormalizingTwice(priority: seq<string>)
    ensures Normalized(Names(Normalized(priority))) == Normalized(priority)
  {
    hide Distinct, NormalizeProviderID, Name;
    NormalizedIsRanked(priority);
    var out := Normalized(priority);
    forall p ensures NormalizeProviderID(Name(p)) == p { NameIsNormal(p); }
    assert IDs(Names(out)) == out;
    DistinctOfDistinct(out);
  }

  function Without(ps: seq<Provider>, p: Provider): seq<Provider> {
    if ps == [] then []
    else Without(ps[..|ps| - 1], p) + if ps[|ps| - 1] == p then [] else [ps[|ps| - 1]]
  }

  lemma {:induction false} WithoutOmits(ps: seq<Provider>, p: Provider)
    requires Unique(ps)
    ensures forall q: Provider :: q in Without(ps, p) <==> q in ps && q != p
    ensures Unique(Without(ps, p))
    decreases |ps|
  {
    hide Unique;
    if ps != [] {
      var n := |ps| - 1;
      UniqueStep(ps);
      WithoutOmits(ps[..n], p);
      assert ps == ps[..n] + [ps[n]];
      var out := Without(ps[..n], p) + [ps[n]];
      assert out[..|out| - 1] == Without(ps[..n], p);
      UniqueStep(out);
      assert Without(ps, p) == if ps[n] == p then Without(ps[..n], p) else out;
    } else {
      NothingUnique();
    }
  }

  lemma PrependUnique(p: Provider, ps: seq<Provider>)
    requires p !in ps && Unique(ps)
    ensures Unique([p] + ps)
  {
  }

  lemma NothingUnique()
    ensures Unique([])
  {
  }

  lemma {:induction false} PreferredFirst(p: Provider, ps: seq<Provider>)
    requires Unique(ps)
    ensures Distinct([p] + ps) == [p] + Without(ps, p)
    decreases |ps|
  {
    hide Unique, Distinct, Without;
    if ps == [] {
      OnlyPreferred(p);
    } else {
      var n := |ps| - 1;
      UniqueStep(ps);
      PreferredFirst(p, ps[..n]);
      WithoutOmits(ps[..n], p);
      WithoutStep(ps, p);
      var all := [p] + ps;
      assert all[..n + 1] == [p] + ps[..n] && all[n + 1] == ps[n] && all[..n + 2] == all;
      DistinctStep(all, n + 1);
      if ps[n] == p {
        assert ([p] + Without(ps[..n], p))[0] == p;
      }
    }
  }

  lemma OnlyPreferred(p: Provider)
    ensures Distinct([p] + []) == [p] + Without([], p)
  {
  }

  lemma WithoutStep(ps: seq<Provider>, p: Provider)
    requires ps != []
    ensures Without(ps, p) == Without(ps[..|ps| - 1], p) + if ps[|ps| - 1] == p then [] else [ps[|ps| - 1]]
  {
  }

  /** The order in which providers are asked: in manual mode the chosen one first and
      the others in the normal order; either way each provider exactly once. */
  lemma OrderIsPreference(cfg: Config)
    ensures Complete(Order(cfg))
    ensures Order(cfg) == if cfg.mode == Manual && cfg.provider.Some?
                          then [cfg.provider.value] + Without(Normalized(cfg.priority), cfg.provider.value)
                          else Normalized(cfg.priority)
  {
    hide Distinct, Without, Normalized, NormalizeProviderID, Ranked;
    NormalizedIsRanked(cfg.priority);
    var normal := Normalized(cfg.priority);
    if cfg.mode == Manual && cfg.provider.Some? {
      var p := cfg.provider.value;
      PreferredFirst(p, normal);
      WithoutOmits(normal, p);
      forall q: Provider ensures q in [p] + Without(normal, p) {
        assert q in normal;
      }
      PrependUnique(p, Without(normal, p));
    } else {
      DistinctOfDistinct(normal);
      assert [] + normal == normal;
    }
  }

  // ---------------------------------------------------------------------------
  // Asking for a route
  // ---------------------------------------------------------------------------

  predicate Works(a: Answer) {
    a.Points? && a.points != []
  }

  /** The first provider of `ps` that is available. */
  function FirstAvailable(ps: seq<Provider>, available: set<Provider>): Option<Provider> {
    if ps == [] then None
    else if ps[0] in available then Some(ps[0])
    else FirstAvailable(ps[1..], available)
  }

  lemma Skip(ps: seq<Provider>, i: nat, available: set<Provider>)
    requires i < |ps|
    ensures FirstAvailable(ps[i..], available)
         == if ps[i] in available then Some(ps[i]) else FirstAvailable(ps[i + 1..], available)
  {
  }

  /** Nothing before `i` in the order both is available and answers. */
  predicate AllFailBefore(ps: seq<Provider>, i: nat, available: set<Provider>, answers: Provider -> Answer)
    requires i <= |ps|
  {
    forall j :: 0 <= j < i ==> ps[j] !in available || !Works(answers(ps[j]))
  }

  /** The answer comes from the earliest available provider that gives a non-empty
      one, and there is none exactly when every available provider fails or gives an
      empty one. `asked` are the providers asked, in order. */
  method Route(cfg: Config, available: set<Provider>, answers: Provider -> Answer)
    returns (r: Option<Result>, asked: seq<Provider>)
    ensures r.None? <==> forall p: Provider :: p in available ==> answers(p) == Failed || answers(p) == Points([])
    ensures r.Some? ==> var order, p := Order(cfg), r.value.provider;
                        && p in available && answers(p) == Points(r.value.points) && r.value.points != []
                        && exists i :: 0 <= i < |order| && order[i] == p && AllFailBefore(order, i, available, answers)
    ensures (if asked == [] then None else Some(asked[0])) == FirstAvailable(Order(cfg), available)
    ensures forall p :: p in asked ==> p in available && (Works(answers(p)) ==> r.Some? && r.value.provider == p)
  {
    var order := ProviderOrder(cfg);
    OrderIsPreference(cfg);
    NoneAvailable([], available);
    hide Order, FirstAvailable, NormalizeProviderID, Normalized;
    asked := [];
    assert order[0..] == order;
    for i := 0 to |order|
      invariant AllFailBefore(order, i, available, answers)
      invariant asked == [] ==> FirstAvailable(order, available) == FirstAvailable(order[i..], available)
      invariant asked != [] ==> FirstAvailable(order, available) == Some(asked[0])
      invariant forall p :: p in asked ==> p in available && !Works(answers(p))
    {
      var p := order[i];
      Skip(order, i, available);
      if p in available {
        asked := asked + [p];
        match answers(p)
        case Failed =>
        case Points(points) =>
          if points != [] {
            return Some(Result(p, points)), asked;
          }
      }
    }
    assert order[|order|..] == [];
    forall p: Provider | p in available ensures !Works(answers(p)) {
      assert p in order;
    }
    r := None;
  }

  // ---------------------------------------------------------------------------
  // The status
  // ---------------------------------------------------------------------------

  /** The provider the status advertises. */
  method ActiveProvider(cfg: Config, available: set<Provider>) returns (active: Provider)
    ensures Some(active) == FirstAvailable(Order(cfg), available)
         || (active == OSRM && available == {} && FirstAvailable(Order(cfg), available) == None)
  {
    FirstAsked(cfg, available);
    hide FirstAvailable, Order, Normalized, NormalizeProviderID;
    var choice: Option<Provider> := None;
    if cfg.mode == Manual && cfg.provider.Some? && cfg.provider.value in available {
      choice := cfg.provider;
    } else {
      var normal := NormalizePriority(cfg.priority);
      assert normal[0..] == normal && normal[|normal|..] == [];
      for i := 0 to |normal|
        invariant FirstAvailable(normal, available) == FirstAvailable(normal[i..], available)
        invariant choice == None
      {
        Skip(normal, i, available);
        if normal[i] in available {
          choice := Some(normal[i]);
          break;
        }
      }
      NoneAvailable([], available);
    }
    active := if choice == None then OSRM else choice.value;
  }

  /** Who is asked first, by the branches of the status. */
  lemma FirstAsked(cfg: Config, available: set<Provider>)
    ensures FirstAvailable(Order(cfg), available)
         == if cfg.mode == Manual && cfg.provider.Some? && cfg.provider.value in available then cfg.provider
            else FirstAvailable(Normalized(cfg.priority), available)
    ensures FirstAvailable(Order(cfg), available) == None <==> available == {}
  {
    OrderIsPreference(cfg);
    NoneAvailable(Order(cfg), available);
    hide Order, Normalized, Without;
    if cfg.mode == Manual && cfg.provider.Some? {
      if cfg.provider.value !in available {
        SkippingTheUnavailable(cfg, available);
      }
    }
  }

  lemma {:induction false} NoneAvailable(ps: seq<Provider>, available: set<Provider>)
    ensures FirstAvailable(ps, available) == None <==> forall p :: p in ps ==> p !in available
  {
    if ps != [] {
      NoneAvailable(ps[1..], available);
      assert ps == [ps[0]] + ps[1..];
    }
  }

  lemma {:induction false} WithoutUnavailable(ps: seq<Provider>, p: Provider, available: set<Provider>)
    requires p !in available
    ensures FirstAvailable(Without(ps, p), available) == FirstAvailable(ps, available)
    decreases |ps|
  {
    if ps != [] {
      var n := |ps| - 1;
      WithoutUnavailable(ps[..n], p, available);
      assert ps == ps[..n] + [ps[n]];
      FirstOfBoth(ps[..n], [ps[n]], available);
      FirstOfBoth(Without(ps[..n], p), [ps[n]], available);
      assert Without(ps[..n], p) + [] == Without(ps[..n], p);
    }
  }

  lemma {:induction false} FirstOfBoth(ps: seq<Provider>, qs: seq<Provider>, available: set<Provider>)
    ensures FirstAvailable(ps + qs, available)
         == if FirstAvailable(ps, available).Some? then FirstAvailable(ps, available) else FirstAvailable(qs, available)
    decreases |ps|
  {
    if ps == [] {
      assert ps + qs == qs;
    } else {
      assert (ps + qs)[1..] == ps[1..] + qs;
      FirstOfBoth(ps[1..], qs, available);
    }
  }

  /** A manual choice that is not available does not change who is asked first. */
  lemma SkippingTheUnavailable(cfg: Config, available: set<Provider>)
    requires cfg.mode == Manual && cfg.provider.Some? ==> cfg.provider.value !in available
    ensures FirstAvailable(Order(cfg), available) == FirstAvailable(Normalized(cfg.priority), available)
  {
    OrderIsPreference(cfg);
    hide Order, Normalized;
    if cfg.mode == Manual && cfg.provider.Some? {
      WithoutUnavailable(Normalized(cfg.priority), cfg.provider.value, available);
      var rest := Without(Normalized(cfg.priority), cfg.provider.value);
      assert ([cfg.provider.value] + rest)[1..] == rest;
    }
  }
}
