/** The opt-in sync of pairing records between cluster nodes: files received from a
    peer, and local changes pushed to the peers. Times are nanoseconds; messages
    carry milliseconds. */
module CertSync {
  import opened Wrappers

  type Name = string
  type Content = seq<bv8>
  type Nanos = int

  const NanosPerMilli := 1_000_000

  datatype File = File(content: Content, mtime: Nanos)

  /** The pairing-record folder and the modification times last seen or set. */
  datatype Store = Store(files: map<Name, File>, certMtimes: map<Name, Nanos>)

  /** A record as received: `path` is its place in the folder, or `None` when there
      is no folder or the name is unsafe; `content` is `None` when it is not base64. */
  datatype Record = Record(path: Option<Name>, content: Option<Content>, modTimeMilli: int)

  /** What the file system does: whether the write and the time change succeed, and
      the time a plain write leaves on the file. */
  datatype Disk = Disk(writes: bool, setsTime: bool, now: Nanos)

  function SenderTime(r: Record): Nanos { r.modTimeMilli * NanosPerMilli }

  function Milli(t: Nanos): int { t / NanosPerMilli }

  // ---------------------------------------------------------------------------
  // The operations as functions
  // ---------------------------------------------------------------------------

  /** The record is well-formed and the write succeeds. */
  predicate Usable(r: Record, d: Disk) {
    r.path.Some? && r.content.Some? && d.writes
  }

  /** A file that is there already wins unless the record is newer, or has no time. */
  predicate Yields(files: map<Name, File>, r: Record)
    requires r.path.Some?
  {
    r.path.value !in files || r.modTimeMilli <= 0 || SenderTime(r) > files[r.path.value].mtime
  }

  predicate Accepted(s: Store, r: Record, d: Disk) {
    Usable(r, d) && Yields(s.files, r)
  }

  function StoredTime(r: Record, d: Disk): Nanos {
    if r.modTimeMilli > 0 && d.setsTime then SenderTime(r) else d.now
  }

  function Received(s: Store, r: Record, d: Disk): Store {
    if !Accepted(s, r, d) then s
    else
      var name := r.path.value;
      Store(s.files[name := File(r.content.value, StoredTime(r, d))],
            if r.modTimeMilli > 0 then s.certMtimes[name := SenderTime(r)] else s.certMtimes)
  }

  /** The file is newer than the time the node last saw or set on it. */
  predicate Changed(s: Store, name: Name)
    requires name in s.files
  {
    name !in s.certMtimes || s.files[name].mtime > s.certMtimes[name]
  }

  /** The names a push sends; `readable` are the files that can be read. */
  function Due(s: Store, readable: set<Name>): set<Name> {
    set name | name in s.files && name in readable && Changed(s, name)
  }

  function Message(name: Name, f: File): Record {
    Record(Some(name), Some(f.content), Milli(f.mtime))
  }

  function Pushed(s: Store, readable: set<Name>): Store {
    s.(certMtimes := map name | name in s.certMtimes.Keys + Due(s, readable) ::
                       if name in Due(s, readable) then s.files[name].mtime else s.certMtimes[name])
  }

  function Pushes(s: Store, readable: set<Name>): map<Name, Record> {
    map name | name in Due(s, readable) :: Message(name, s.files[name])
  }

  // ---------------------------------------------------------------------------
  // The node
  // ---------------------------------------------------------------------------

  class Node {
    var files: map<Name, File>
    var certMtimes: map<Name, Nanos>

    ghost function View(): Store
      reads this
    {
      Store(files, certMtimes)
    }

    constructor (folder: map<Name, File>)
      ensures View() == Store(folder, map[])
    {
      files, certMtimes := folder, map[];
    }

    method WriteLocalPlist(r: Record, d: Disk)
      modifies this
      ensures View() == Received(old(View()), r, d)
      ensures var taken := && r.path.Some? && r.content.Some? && d.writes
                           && (r.path.value !in old(files) || r.modTimeMilli <= 0
                               || r.modTimeMilli * 1_000_000 > old(files)[r.path.value].mtime);
              if !taken then View() == old(View())
              else
                var t := r.modTimeMilli * 1_000_000;
                && files == old(files)[r.path.value :=
                     File(r.content.value, if r.modTimeMilli > 0 && d.setsTime then t else d.now)]
                && certMtimes == if r.modTimeMilli > 0 then old(certMtimes)[r.path.value := t] else old(certMtimes)
    {
      if r.path.None? {
        return;
      }
      var name := r.path.value;
      if name in files && r.modTimeMilli > 0 && !(SenderTime(r) > files[name].mtime) {
        return;
      }
      if r.content.None? || !d.writes {
        return;
      }
      files := files[name := File(r.content.value, d.now)];
      if r.modTimeMilli > 0 {
        var t := SenderTime(r);
        if d.setsTime {
          files := files[name := files[name].(mtime := t)];
        }
        certMtimes := certMtimes[name := t];
      }
    }

    /** The files are visited in any order; without peers nothing happens. */
    method PushChangedCerts(peers: nat, readable: set<Name>) returns (sent: map<Name, Record>)
      modifies this
      ensures peers == 0 ==> sent == map[] && View() == old(View())
      ensures peers > 0 ==> sent == Pushes(old(View()), readable) && View() == Pushed(old(View()), readable)
      ensures files == old(files)
      ensures peers > 0 ==> forall name :: name in sent <==>
                && name in files && name in readable
                && (name !in old(certMtimes) || files[name].mtime > old(certMtimes)[name])
      ensures forall name :: name in sent ==>
                sent[name] == Record(Some(name), Some(files[name].content), files[name].mtime / 1_000_000)
      ensures certMtimes == old(certMtimes) + map name | name in sent :: files[name].mtime
    {
      sent := map[];
      if peers == 0 {
        return;
      }
      var rest := files.Keys;
      ghost var s := View();
      while rest != {}
        invariant rest <= files.Keys && files == s.files
        invariant forall name :: name in sent <==> name in Due(s, readable) && name !in rest
        invariant forall name :: name in sent ==> sent[name] == Message(name, s.files[name])
        invariant certMtimes.Keys == s.certMtimes.Keys + sent.Keys
        invariant forall name :: name in certMtimes ==>
                    certMtimes[name] == if name in sent then s.files[name].mtime else s.certMtimes[name]
        decreases rest
      {
        var name :| name in rest;
        rest := rest - {name};
        var f := files[name];
        if (name !in certMtimes || f.mtime > certMtimes[name]) && name in readable {
          certMtimes := certMtimes[name := f.mtime];
          sent := sent[name := Message(name, f)];
        }
      }
      assert sent.Keys == Due(s, readable);
    }
  }

  // ---------------------------------------------------------------------------
  // Last writer wins
  // ---------------------------------------------------------------------------

  /** Records arriving one after the other; `ds` says what the disk does for each. */
  function ReceivedAll(s: Store, rs: seq<Record>, ds: seq<Disk>): Store
    requires |rs| == |ds|
  {
    if rs == [] then s
    else Received(ReceivedAll(s, rs[..|rs| - 1], ds[..|rs| - 1]), rs[|rs| - 1], ds[|rs| - 1])
  }

  /** The records that reach the folder: well-formed, and not lost to a failed write. */
  function Landed(rs: seq<Record>, ds: seq<Disk>): set<Record>
    requires |rs| == |ds|
  {
    set i | 0 <= i < |rs| && Usable(rs[i], ds[i]) :: rs[i]
  }

  /** Every record that reaches the folder carries a time, and the disk sets it. */
  predicate Timed(rs: seq<Record>, ds: seq<Disk>)
    requires |rs| == |ds|
  {
    forall i :: 0 <= i < |rs| && Usable(rs[i], ds[i]) ==> rs[i].modTimeMilli > 0 && ds[i].setsTime
  }

  predicate Holds(s: Store, name: Name, r: Record) {
    && name in s.files && r.path == Some(name) && r.content.Some?
    && s.files[name] == File(r.content.value, SenderTime(r))
  }

  /** The folder holds nothing for `name` that is older than `t`. */
  predicate AsNewAs(s: Store, name: Name, t: Nanos) {
    name in s.files && s.files[name].mtime >= t
  }

  predicate Untouched(s: Store, s': Store, name: Name) {
    (name in s'.files <==> name in s.files) && (name in s.files ==> s'.files[name] == s.files[name])
  }

  /** In `s'` the file is the newest of what `s` holds and `landed` brings: the file
      of `s`, or a record newer than that file, and never older than any record. */
  predicate Newest(s: Store, landed: set<Record>, s': Store, name: Name) {
    && (Untouched(s, s', name) || exists r :: r in landed && Holds(s', name, r))
    && (name in s.files && !Untouched(s, s', name) ==> AsNewAs(s', name, s.files[name].mtime + 1))
    && (forall r :: r in landed && r.path == Some(name) ==> AsNewAs(s', name, SenderTime(r)))
  }

  /** Last writer wins, whatever the order and the repeats. */
  lemma {:induction false} NewestWins(s: Store, rs: seq<Record>, ds: seq<Disk>, name: Name)
    requires |rs| == |ds| && Timed(rs, ds)
    ensures Newest(s, Landed(rs, ds), ReceivedAll(s, rs, ds), name)
    decreases |rs|
  {
    if rs != [] {
      var n := |rs| - 1;
      var before := ReceivedAll(s, rs[..n], ds[..n]);
      NewestWins(s, rs[..n], ds[..n], name);
      NewestAfter(s, Landed(rs[..n], ds[..n]), before, rs[n], ds[n], name);
      assert Landed(rs, ds) == Landed(rs[..n], ds[..n]) + if Usable(rs[n], ds[n]) then {rs[n]} else {} by {
        LandedGrows(rs, ds);
      }
    }
  }

  lemma LandedGrows(rs: seq<Record>, ds: seq<Disk>)
    requires |rs| == |ds| && rs != []
    ensures var n := |rs| - 1;
            Landed(rs, ds) == Landed(rs[..n], ds[..n]) + if Usable(rs[n], ds[n]) then {rs[n]} else {}
  {
  }

  lemma NewestAfter(s: Store, landed: set<Record>, before: Store, r: Record, d: Disk, name: Name)
    requires Newest(s, landed, before, name)
    requires Usable(r, d) ==> r.modTimeMilli > 0 && d.setsTime
    ensures Newest(s, landed + if Usable(r, d) then {r} else {}, Received(before, r, d), name)
  {
  }

  /** Two records for one file have the same time and different contents, and both are
      newer than the folder and than every other record for it. */
  predicate Tie(s: Store, landed: set<Record>, r: Record, r': Record) {
    && r in landed && r' in landed && r.path.Some? && r.path == r'.path
    && r.modTimeMilli == r'.modTimeMilli && r.content != r'.content
    && (r.path.value in s.files ==> SenderTime(r) > s.files[r.path.value].mtime)
    && (forall x :: x in landed && x.path == r.path ==> x.modTimeMilli <= r.modTimeMilli)
  }

  ghost predicate Tied(s: Store, landed: set<Record>) {
    exists r, r' :: Tie(s, landed, r, r')
  }

  lemma NewestIsUnique(s: Store, landed: set<Record>, a: Store, b: Store, name: Name)
    requires Newest(s, landed, a, name) && Newest(s, landed, b, name) && !Tied(s, landed)
    ensures Untouched(a, b, name)
  {
    if !Untouched(s, a, name) && !Untouched(s, b, name) {
      var r :| r in landed && Holds(a, name, r);
      var r' :| r' in landed && Holds(b, name, r');
      assert AsNewAs(b, name, SenderTime(r)) && AsNewAs(a, name, SenderTime(r'));
      assert !Tie(s, landed, r, r');
    }
  }

  /** Two nodes that start with the same folder and take the same records, none of
      them tied, end with the same folder. */
  lemma OrderIsIrrelevant(s: Store, rs: seq<Record>, ds: seq<Disk>, rs': seq<Record>, ds': seq<Disk>)
    requires |rs| == |ds| && Timed(rs, ds) && |rs'| == |ds'| && Timed(rs', ds')
    requires Landed(rs, ds) == Landed(rs', ds') && !Tied(s, Landed(rs, ds))
    ensures ReceivedAll(s, rs, ds).files == ReceivedAll(s, rs', ds').files
  {
    hide ReceivedAll, Newest, Untouched, Tied, Landed, Timed;
    var a, b := ReceivedAll(s, rs, ds), ReceivedAll(s, rs', ds');
    forall name ensures Untouched(a, b, name) {
      NewestWins(s, rs, ds, name);
      NewestWins(s, rs', ds', name);
      NewestIsUnique(s, Landed(rs, ds), a, b, name);
    }
    SameFolder(a, b);
  }

  lemma SameFolder(a: Store, b: Store)
    requires forall name :: Untouched(a, b, name)
    ensures a.files == b.files
  {
    assert forall name :: Untouched(a, b, name) ==> (name in a.files <==> name in b.files);
  }

  const GoodDisk := Disk(true, true, 0)

  /** Records that a good disk takes and that carry a time. */
  predicate Takeable(landed: set<Record>) {
    forall r :: r in landed ==> r.path.Some? && r.content.Some? && r.modTimeMilli > 0
  }

  lemma LandedIsTakeable(rs: seq<Record>, ds: seq<Disk>)
    requires |rs| == |ds| && Timed(rs, ds)
    ensures Takeable(Landed(rs, ds))
  {
  }

  lemma {:induction false} ReceivedFirst(s: Store, r: Record, d: Disk, rs: seq<Record>, ds: seq<Disk>)
    requires |rs| == |ds|
    ensures ReceivedAll(s, [r] + rs, [d] + ds) == ReceivedAll(Received(s, r, d), rs, ds)
    decreases |rs|
  {
    var all, n := [r] + rs, |rs|;
    assert all[..n] == if n == 0 then [] else [r] + rs[..n - 1];
    assert ([d] + ds)[..n] == if n == 0 then [] else [d] + ds[..n - 1];
    if n == 0 {
      assert ReceivedAll(s, all[..0], ([d] + ds)[..0]) == s;
    } else {
      ReceivedFirst(s, r, d, rs[..n - 1], ds[..n - 1]);
    }
  }

  /** Of tied records the one that arrives first stays, whichever of the others follow. */
  lemma TieKeepsTheFirst(s: Store, landed: set<Record>, r: Record, r': Record, d: Disk,
                         rest: seq<Record>, ds: seq<Disk>)
    requires Tie(s, landed, r, r') && Takeable(landed) && d.writes && d.setsTime
    requires |rest| == |ds| && Timed(rest, ds) && Landed(rest, ds) <= landed
    ensures var s' := ReceivedAll(s, [r] + rest, [d] + ds);
            r.path.value in s'.files && Some(s'.files[r.path.value].content) == r.content
  {
    var name, first := r.path.value, Received(s, r, d);
    ReceivedFirst(s, r, d, rest, ds);
    NewestWins(first, rest, ds, name);
    assert Holds(first, name, r);
    hide ReceivedAll, Landed, Timed;
  }

  lemma TakenAgain(r: Record, rs: seq<Record>, ds: seq<Disk>)
    requires |rs| == |ds| && r in Landed(rs, ds) && Timed(rs, ds)
    ensures Landed([r] + rs, [GoodDisk] + ds) == Landed(rs, ds)
    ensures Timed([r] + rs, [GoodDisk] + ds)
  {
    var all, es := [r] + rs, [GoodDisk] + ds;
    forall x | x in Landed(rs, ds) ensures x in Landed(all, es) {
      var i :| 0 <= i < |rs| && Usable(rs[i], ds[i]) && rs[i] == x;
      assert all[i + 1] == x && Usable(all[i + 1], es[i + 1]);
    }
    forall i | 0 <= i < |all| && Usable(all[i], es[i])
      ensures all[i] in Landed(rs, ds) && all[i].modTimeMilli > 0 && es[i].setsTime
    {
      if i > 0 {
        assert all[i] == rs[i - 1] && Usable(rs[i - 1], ds[i - 1]);
      }
    }
  }

  /** Every node that takes these records ends with the same folder. */
  ghost predicate Settles(s: Store, landed: set<Record>, files: map<Name, File>) {
    forall rs, ds :: |rs| == |ds| && Timed(rs, ds) && Landed(rs, ds) == landed ==> ReceivedAll(s, rs, ds).files == files
  }

  /** The order and the number of deliveries do not matter if and only if no two of
      the records are tied. */
  lemma OrderIsIrrelevantExactly(s: Store, rs: seq<Record>, ds: seq<Disk>)
    requires |rs| == |ds| && Timed(rs, ds)
    ensures Settles(s, Landed(rs, ds), ReceivedAll(s, rs, ds).files) <==> !Tied(s, Landed(rs, ds))
  {
    hide ReceivedAll, Landed, Timed, Tie;
    var landed := Landed(rs, ds);
    if Tied(s, landed) {
      var r, r' :| Tie(s, landed, r, r');
      LandedIsTakeable(rs, ds);
      TieIsSymmetric(s, landed, r, r');
      TakenAgain(r, rs, ds);
      TakenAgain(r', rs, ds);
      TieKeepsTheFirst(s, landed, r, r', GoodDisk, rs, ds);
      TieKeepsTheFirst(s, landed, r', r, GoodDisk, rs, ds);
      assert ReceivedAll(s, [r] + rs, [GoodDisk] + ds).files != ReceivedAll(s, [r'] + rs, [GoodDisk] + ds).files;
    } else {
      forall rs', ds' | |rs'| == |ds'| && Timed(rs', ds') && Landed(rs', ds') == landed
        ensures ReceivedAll(s, rs', ds').files == ReceivedAll(s, rs, ds).files
      {
        OrderIsIrrelevant(s, rs', ds', rs, ds);
      }
    }
  }

  lemma TieIsSymmetric(s: Store, landed: set<Record>, r: Record, r': Record)
    requires Tie(s, landed, r, r')
    ensures Tie(s, landed, r', r) && r in landed && r' in landed
    ensures r.path == r'.path && r.path.Some? && r.content != r'.content
  {
  }

  /** A stored time goes back in exactly one case: the record is written with the
      time of the write, because it carries none or the time could not be set, and
      the clock is behind the file. */
  lemma StoredTimeGoesBackExactly(s: Store, r: Record, d: Disk, name: Name)
    requires name in s.files
    ensures Received(s, r, d).files[name].mtime < s.files[name].mtime
       <==> && r.path == Some(name) && Accepted(s, r, d)
            && (r.modTimeMilli <= 0 || !d.setsTime) && d.now < s.files[name].mtime
  {
  }

  // ---------------------------------------------------------------------------
  // What is pushed
  // ---------------------------------------------------------------------------

  /** `name` would not be pushed. */
  predicate Settled(s: Store, name: Name) {
    name in s.files ==> !Changed(s, name)
  }

  /** A record that was just accepted is not pushed back, except in exactly one case:
      its time could not be set and the clock was past it. */
  lemma AcceptedIsSettledExactly(s: Store, r: Record, d: Disk)
    requires Accepted(s, r, d) && r.modTimeMilli > 0
    ensures Settled(Received(s, r, d), r.path.value) <==> d.setsTime || d.now <= SenderTime(r)
  {
  }

  datatype Event =
    | Receive(r: Record, d: Disk)
    | Push(peers: nat, readable: set<Name>)
    | Edit(name: Name, file: File)
    | Delete(name: Name)

  function Step(s: Store, e: Event): Store {
    match e
    case Receive(r, d) => Received(s, r, d)
    case Push(peers, readable) => if peers > 0 then Pushed(s, readable) else s
    case Edit(name, file) => s.(files := s.files[name := file])
    case Delete(name) => s.(files := s.files - {name})
  }

  function After(s: Store, es: seq<Event>): Store {
    if es == [] then s else Step(After(s, es[..|es| - 1]), es[|es| - 1])
  }

  /** The event changes the file locally, or writes a record for it with the time of the write. */
  predicate Disturbs(e: Event, name: Name) {
    || (e.Edit? && e.name == name)
    || (e.Receive? && e.r.path == Some(name) && (e.r.modTimeMilli <= 0 || !e.d.setsTime))
  }

  /** A file that is settled stays so, through any receipts, pushes, deletions and
      changes of other files, until it changes locally: nothing bounces back. */
  lemma {:induction false} NotPushedUntilChanged(s: Store, es: seq<Event>, name: Name, readable: set<Name>)
    requires Settled(s, name)
    requires forall i :: 0 <= i < |es| ==> !Disturbs(es[i], name)
    ensures Settled(After(s, es), name)
    ensures name !in Pushes(After(s, es), readable)
    decreases |es|
  {
    if es != [] {
      NotPushedUntilChanged(s, es[..|es| - 1], name, readable);
      hide After;
      assert Settled(Step(After(s, es[..|es| - 1]), es[|es| - 1]), name);
    }
  }

  /** What a push sends: exactly the files that are there, can be read and are newer
      than the time last seen or set on them, or were never seen, with their content
      and their time in milliseconds. */
  lemma PushesExactly(s: Store, readable: set<Name>, name: Name)
    ensures name in Pushes(s, readable) <==>
            && name in s.files && name in readable
            && (name !in s.certMtimes || s.files[name].mtime > s.certMtimes[name])
    ensures name in Pushes(s, readable) ==>
              var f := s.files[name];
              Pushes(s, readable)[name] == Record(Some(name), Some(f.content), f.mtime / 1_000_000)
  {
  }

  /** The event leaves the file and the time last seen on it alone: it is about other
      files, or a push that cannot read this one or has no peers. */
  predicate Passes(e: Event, name: Name) {
    match e
    case Receive(r, _) => r.path != Some(name)
    case Push(peers, readable) => peers == 0 || name !in readable
    case Edit(other, _) => other != name
    case Delete(other) => other != name
  }

  lemma PassingStep(s: Store, e: Event, name: Name)
    requires Passes(e, name)
    ensures var t := Step(s, e);
            && (name in t.files <==> name in s.files) && (name in s.files ==> t.files[name] == s.files[name])
            && (name in t.certMtimes <==> name in s.certMtimes)
            && (name in s.certMtimes ==> t.certMtimes[name] == s.certMtimes[name])
  {
  }

  lemma {:induction false} PassingRun(s: Store, es: seq<Event>, name: Name)
    requires forall i :: 0 <= i < |es| ==> Passes(es[i], name)
    ensures var t := After(s, es);
            && (name in t.files <==> name in s.files) && (name in s.files ==> t.files[name] == s.files[name])
            && (name in t.certMtimes <==> name in s.certMtimes)
            && (name in s.certMtimes ==> t.certMtimes[name] == s.certMtimes[name])
    decreases |es|
  {
    hide Passes, Step;
    if es != [] {
      PassingRun(s, es[..|es| - 1], name);
      PassingStep(After(s, es[..|es| - 1]), es[|es| - 1], name);
    }
  }

  /** A file that is pushed and then edited is sent by the next push that can read it,
      with its new content, if and only if the edit gave it a later time; whatever comes
      before and after the edit, pushes that could not read it included. */
  lemma EditIsPushedExactly(s: Store, readable: set<Name>, es: seq<Event>, name: Name, file: File,
                            later: seq<Event>, readable': set<Name>)
    requires name in Pushes(s, readable) && name in readable'
    requires forall i :: 0 <= i < |es| ==> Passes(es[i], name)
    requires forall i :: 0 <= i < |later| ==> Passes(later[i], name)
    ensures var t := After(Step(After(Step(s, Push(1, readable)), es), Edit(name, file)), later);
            && (name in Pushes(t, readable') <==> file.mtime > s.files[name].mtime)
            && (name in Pushes(t, readable') ==>
                  Pushes(t, readable')[name] == Record(Some(name), Some(file.content), file.mtime / 1_000_000))
  {
    hide After;
    var pushed := Step(s, Push(1, readable));
    PassingRun(pushed, es, name);
    var edited := Step(After(pushed, es), Edit(name, file));
    PassingRun(edited, later, name);
    PushesExactly(After(edited, later), readable', name);
    assert pushed.certMtimes[name] == s.files[name].mtime;
    hide Pushes, Pushed;
  }

  /** A push settles every file it sends, reached or not: a push that is lost is not
      repeated until the file changes. */
  lemma PushIsNotRepeated(s: Store, readable: set<Name>, es: seq<Event>, name: Name, readable': set<Name>)
    requires name in Pushes(s, readable)
    requires forall i :: 0 <= i < |es| ==> !Disturbs(es[i], name)
    ensures name !in Pushes(After(Pushed(s, readable), es), readable')
  {
  }

  /** What the owner of a file pushes, it ignores when it comes back, exactly when the
      message carries a time; a file from before the first millisecond of 1970 is rewritten. */
  lemma EchoIsIgnoredExactly(s: Store, readable: set<Name>, name: Name, d: Disk)
    requires name in Pushes(s, readable) && d.writes
    ensures !Accepted(s, Pushes(s, readable)[name], d) <==> s.files[name].mtime >= NanosPerMilli
  {
  }

  /** A push that arrives leaves the peer with the pushed content if and only if the
      peer had no such file or had that content already, or the message carries no
      time, or its milliseconds are past the peer's file. */
  lemma PushReachesPeerExactly(s: Store, readable: set<Name>, peer: Store, name: Name, d: Disk)
    requires name in Pushes(s, readable) && d.writes
    ensures var f, peer' := s.files[name], Received(peer, Pushes(s, readable)[name], d);
            && name in peer'.files
            && (peer'.files[name].content == f.content <==>
                || name !in peer.files
                || peer.files[name].content == f.content
                || f.mtime < 1_000_000
                || f.mtime / 1_000_000 * 1_000_000 > peer.files[name].mtime)
  {
  }

  /** So a file that is newer only within its millisecond never arrives: the peer keeps
      its older content, and the owner does not push again, over any run, until its
      file changes. */
  lemma NewerWithinTheMillisecondIsLost(name: Name, mine: Content, theirs: Content, d: Disk,
                                        es: seq<Event>, readable: set<Name>)
    requires mine != theirs && d.writes
    requires forall i :: 0 <= i < |es| ==> !Disturbs(es[i], name)
    ensures var s := Store(map[name := File(mine, 1_000_500)], map[]);
            var peer := Store(map[name := File(theirs, 1_000_000)], map[]);
            && s.files[name].mtime > peer.files[name].mtime
            && name in Pushes(s, {name}) && Received(peer, Pushes(s, {name})[name], d) == peer
            && name !in Pushes(After(Pushed(s, {name}), es), readable)
  {
    var s := Store(map[name := File(mine, 1_000_500)], map[]);
    assert name in Due(s, {name});
    PushIsNotRepeated(s, {name}, es, name, readable);
  }
}
