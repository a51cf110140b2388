/** The commit guard of `scripts/commit_breakglass_guard.py`: the pre-commit wrapper signs a
    marker for the exact staged tree, and prepare-commit-msg lets a commit through only on
    such a marker or on an authorized, audited breakglass. */
module CommitGuard {
  import opened Strings

  const MARKER_VERSION := 1
  const MINUTE := 60_000_000

  type Key = seq<bv8>

  /** The keyed digest of a marker's version, creation time, HEAD and tree, as hex text. */
  type Mac = (Key, int, int, string, string) -> string

  /** What git answers: no tree when `write-tree` fails, no HEAD when `rev-parse` fails. */
  datatype Repo = Repo(treeOut: Option<string>, headOut: Option<string>)

  function Tree(repo: Repo): string requires repo.treeOut.Some? { Strip(repo.treeOut.value) }

  function Head(repo: Repo): string { if repo.headOut.None? then "" else Strip(repo.headOut.value) }

  /** The success marker: its time in microseconds, or none when unreadable. */
  datatype Marker = Marker(version: int, createdAt: Option<int>, head: string, tree: string, signature: string)

  datatype Failure =
    | NoMarker | UnsupportedVersion | NoTimestamp | Stale | WrongTree | WrongHead | KeyUnavailable | BadSignature

  /** One audit line; the breakglass marker holds the same record. */
  datatype Entry = Entry(authorized: bool, at: int, tree: string, head: string, ticket: string, reason: string,
                         detail: Failure, actor: string)

  /** The files the guard owns. */
  datatype Files = Files(marker: Option<Marker>, bypass: Option<Entry>, key: Option<Key>, audit: seq<Entry>)

  datatype Auth = AuthRaised | AuthDenied(deniedActor: string) | AuthGranted(actor: string)

  /** What prepare-commit-msg finds in its environment: the three variables, the agent name
      and how the sign-in prompt would end. */
  datatype Env = Env(flag: string, ticket: string, reason: string, agent: string, auth: Auth)

  /** How a command ends: exit code 0, exit code 1, or an uncaught exception. */
  datatype Exit = Zero | One | Uncaught

  function MaxAge(minutes: int): int { (if minutes < 1 then 1 else minutes) * MINUTE }

  predicate Truthy(value: string) { Lower(Strip(value)) in ["1", "true", "yes", "y", "on"] }

  /** `" ".join(value.split())`. */
  function Cleaned(value: string): string { Join(Words(value), ' ') }

  function MarkerSignature(mac: Mac, m: Marker, key: Key): string
    requires m.createdAt.Some?
  {
    mac(key, m.version, m.createdAt.value, m.head, m.tree)
  }

  // ---------------------------------------------------------------- the three commands on the files

  datatype Verdict = Valid | Invalid(why: Failure) | GitFailed

  function Validate(mac: Mac, f: Files, now: int, repo: Repo, minutes: int): Verdict {
    if f.marker.None? then Invalid(NoMarker)
    else
      var m := f.marker.value;
      if m.version != MARKER_VERSION then Invalid(UnsupportedVersion)
      else if m.createdAt.None? then Invalid(NoTimestamp)
      else if now - m.createdAt.value > MaxAge(minutes) then Invalid(Stale)
      else if repo.treeOut.None? then GitFailed
      else if Strip(m.tree) == "" || Strip(m.tree) != Tree(repo) then Invalid(WrongTree)
      else if Strip(m.head) != Head(repo) then Invalid(WrongHead)
      else if f.key.None? then Invalid(KeyUnavailable)
      else if m.signature == "" || m.signature != MarkerSignature(mac, m, f.key.value) then Invalid(BadSignature)
      else Valid
  }

  function Start(f: Files): Files { f.(marker := None, bypass := None) }

  /** The key after the success step asked for it to be created when missing. */
  function KeyOrMinted(key: Option<Key>, minted: Key, keyWritable: bool): Option<Key> {
    if key.Some? then key else if keyWritable then Some(minted) else None
  }

  function Success(mac: Mac, f: Files, now: int, repo: Repo, minted: Key, keyWritable: bool): Files {
    if repo.treeOut.None? then f
    else
      var key := KeyOrMinted(f.key, minted, keyWritable);
      var unsigned := Marker(MARKER_VERSION, Some(now), Head(repo), Tree(repo), "");
      var marker := if key.None? then unsigned else unsigned.(signature := MarkerSignature(mac, unsigned, key.value));
      f.(marker := Some(marker), bypass := None, key := key)
  }

  /** The environment asks for breakglass, names a ticket and a reason, and sign-in agrees. */
  predicate Authorized(env: Env) {
    Truthy(env.flag) && Cleaned(env.ticket) != "" && Cleaned(env.reason) != "" && env.auth.AuthGranted?
  }

  predicate Denied(env: Env) {
    Truthy(env.flag) && Cleaned(env.ticket) != "" && Cleaned(env.reason) != "" && env.auth.AuthDenied?
  }

  function Actor(env: Env): string
    requires env.auth.AuthGranted?
  {
    if env.auth.actor == "" then env.agent else env.auth.actor
  }

  function EntryFor(env: Env, now: int, repo: Repo, why: Failure): Entry
    requires (Authorized(env) || Denied(env)) && repo.treeOut.Some?
  {
    Entry(env.auth.AuthGranted?, now, Tree(repo), Head(repo), Cleaned(env.ticket), Cleaned(env.reason), why,
          if env.auth.AuthGranted? then Actor(env) else env.auth.deniedActor)
  }

  function Prepare(mac: Mac, f: Files, now: int, repo: Repo, minutes: int, env: Env): (Files, Exit) {
    match Validate(mac, f, now, repo, minutes)
    case Valid => (f, Zero)
    case GitFailed => (f, Uncaught)
    case Invalid(why) =>
      if !Authorized(env) && !Denied(env) then (f, One)
      else if repo.treeOut.None? then (f, Uncaught)
      else
        var e := EntryFor(env, now, repo, why);
        if Denied(env) then (f.(audit := f.audit + [e]), One)
        else (f.(bypass := Some(e), audit := f.audit + [e]), Zero)
  }

  /** The commit message gets the breakglass trailer once. */
  const TRAILER_KEY := "thomas-breakglass:"
  const BYPASS_BY := " authorized local commit gate bypass by "
  const REASON_KEY := "Thomas-Breakglass-Reason: "

  function TrailerText(env: Env): string
    requires Authorized(env)
  {
    Authority(env) + "\n" + ReasonLine(env) + "\n"
  }

  function Authority(env: Env): string
    requires Authorized(env)
  {
    " " + Cleaned(env.ticket) + BYPASS_BY + Cleaned(Actor(env))
  }

  function ReasonLine(env: Env): string { REASON_KEY + Cleaned(env.reason) }

  function WithTrailer(message: string, env: Env): string
    requires Authorized(env)
  {
    var lowered := Lower(message);
    if Contains(TRAILER_KEY, lowered) || Contains("thomas-local-commit-breakglass:", lowered) then message
    else
      TrimRight(message, IsSpace) + "\n\n" + "Thomas-Breakglass:" + TrailerText(env)
  }

  // ---------------------------------------------------------------- the commands as the script runs them

  /** The guard's files, which each command changes in place. */
  class Guard {
    const mac: Mac
    var marker: Option<Marker>
    var bypass: Option<Entry>
    var key: Option<Key>
    var audit: seq<Entry>

    constructor (mac: Mac)
      ensures this.mac == mac && Contents() == Files(None, None, None, [])
    {
      this.mac := mac;
      marker, bypass, key, audit := None, None, None, [];
    }

    ghost function Contents(): Files
      reads this
    {
      Files(marker, bypass, key, audit)
    }

    method LoadOrCreateKey(create: bool, minted: Key, writable: bool) returns (k: Option<Key>)
      modifies this`key
      ensures k == key == if create then KeyOrMinted(old(key), minted, writable) else old(key)
    {
      if key.Some? || !create || !writable {
        return key;
      }
      key := Some(minted);
      return key;
    }

    method PreCommitStart()
      modifies this
      ensures Contents() == Start(old(Contents()))
    {
      marker := None;
      bypass := None;
    }

    method PreCommitSuccess(now: int, repo: Repo, minted: Key, keyWritable: bool) returns (exit: Exit)
      modifies this
      ensures Contents() == Success(mac, old(Contents()), now, repo, minted, keyWritable)
      ensures exit == if repo.treeOut.None? then Uncaught else Zero
    {
      hide Tree, Head, MarkerSignature;
      if repo.treeOut.None? {
        return Uncaught;
      }
      var payload := Marker(MARKER_VERSION, Some(now), Head(repo), Tree(repo), "");
      var k := LoadOrCreateKey(true, minted, keyWritable);
      if k.Some? {
        payload := payload.(signature := MarkerSignature(mac, payload, k.value));
      }
      marker := Some(payload);
      bypass := None;
      return Zero;
    }

    method AuthorizeBreakglass(why: Failure, now: int, repo: Repo, env: Env, message: Option<string>)
      returns (exit: Exit, written: Option<string>)
      modifies this
      ensures exit.Zero? <==> Authorized(env) && repo.treeOut.Some?
      ensures exit.Uncaught? <==> (Authorized(env) || Denied(env)) && repo.treeOut.None?
      ensures marker == old(marker) && key == old(key)
      ensures audit == if (Authorized(env) || Denied(env)) && repo.treeOut.Some?
                       then old(audit) + [EntryFor(env, now, repo, why)] else old(audit)
      ensures bypass == if exit.Zero? then Some(EntryFor(env, now, repo, why)) else old(bypass)
      ensures written == if exit.Zero? && message.Some? then Some(WithTrailer(message.value, env)) else message
    {
      hide Truthy, Cleaned, WithTrailer, Tree, Head;
      written := message;
      if !Truthy(env.flag) {
        return One, written;
      }
      var ticket, reason := Cleaned(env.ticket), Cleaned(env.reason);
      if ticket == "" || reason == "" {
        return One, written;
      }
      if env.auth.AuthRaised? {
        return One, written;
      }
      if repo.treeOut.None? {
        return Uncaught, written;
      }
      var base := Entry(env.auth.AuthGranted?, now, Tree(repo), Head(repo), ticket, reason, why,
                        if env.auth.AuthDenied? then env.auth.deniedActor else env.auth.actor);
      if env.auth.AuthDenied? {
        audit := audit + [base];
        return One, written;
      }
      var actor := Actor(env);
      if message.Some? {
        written := Some(WithTrailer(message.value, env));
      }
      bypass := Some(base.(actor := actor));
      audit := audit + [base.(actor := actor)];
      return Zero, written;
    }

    method PrepareCommitMsg(now: int, repo: Repo, minutes: int, env: Env, message: Option<string>)
      returns (exit: Exit, written: Option<string>)
      modifies this
      ensures (Contents(), exit) == Prepare(mac, old(Contents()), now, repo, minutes, env)
      ensures written != message ==> exit.Zero? && Authorized(env)
    {
      hide Truthy, Cleaned, WithTrailer, Tree, Head, Validate;
      var verdict := Validate(mac, Files(marker, bypass, key, audit), now, repo, minutes);
      match verdict
      case Valid => return Zero, message;
      case GitFailed => return Uncaught, message;
      case Invalid(why) => exit, written := AuthorizeBreakglass(why, now, repo, env, message);
    }
  }

  // ---------------------------------------------------------------- runs

  /** Everything that can happen around a commit. Other processes may move the clock, the
      index, HEAD and the key file; only the commands write the markers and the audit log. */
  datatype Event =
    | OnStart
    | OnSuccess(minted: Key, keyWritable: bool)
    | OnIndexChange(treeOut: Option<string>)
    | OnHeadChange(headOut: Option<string>)
    | OnTick(time: int)
    | OnKeyChange(newKey: Option<Key>)
    | OnPrepare(minutes: int, env: Env)

  datatype World = World(now: int, repo: Repo, files: Files)

  function Step(mac: Mac, w: World, e: Event): World {
    match e
    case OnStart => w.(files := Start(w.files))
    case OnSuccess(minted, keyWritable) => w.(files := Success(mac, w.files, w.now, w.repo, minted, keyWritable))
    case OnIndexChange(treeOut) => w.(repo := w.repo.(treeOut := treeOut))
    case OnHeadChange(headOut) => w.(repo := w.repo.(headOut := headOut))
    case OnTick(time) => w.(now := time)
    case OnKeyChange(newKey) => w.(files := w.files.(key := newKey))
    case OnPrepare(minutes, env) => w.(files := Prepare(mac, w.files, w.now, w.repo, minutes, env).0)
  }

  function After(mac: Mac, w: World, run: seq<Event>): World {
    if run == [] then w else Step(mac, After(mac, w, run[..|run| - 1]), run[|run| - 1])
  }

  /** The step writes or removes the success marker: a start, or a success that git let finish. */
  predicate Marks(before: World, e: Event) {
    e.OnStart? || (e.OnSuccess? && before.repo.treeOut.Some?)
  }

  /** Step `i` is the last of the run to touch the success marker. */
  ghost predicate LastMark(mac: Mac, w: World, run: seq<Event>, i: nat) {
    && i < |run| && Marks(After(mac, w, run[..i]), run[i])
    && forall j :: i < j < |run| ==> !Marks(After(mac, w, run[..j]), run[j])
  }

  /** Prepare would pass without breakglass. */
  predicate PassesClean(mac: Mac, w: World, minutes: int) {
    Validate(mac, w.files, w.now, w.repo, minutes).Valid?
  }

  /** The key the success step `e` leaves, taken in world `b`, signs as the key in world `w` does. */
  predicate SameSignature(mac: Mac, b: World, e: Event, w: World)
    requires e.OnSuccess? && b.repo.treeOut.Some?
  {
    var signer := KeyOrMinted(b.files.key, e.minted, e.keyWritable);
    && signer.Some? && w.files.key.Some?
    && mac(signer.value, MARKER_VERSION, b.now, Head(b.repo), Tree(b.repo))
       == mac(w.files.key.value, MARKER_VERSION, b.now, Head(b.repo), Tree(b.repo))
  }

  /** What git wrote both times is the same tree, and not blank. */
  predicate SameTree(before: Option<string>, now: Option<string>) {
    before.Some? && now.Some? && Strip(before.value) == Strip(now.value) != ""
  }

  /** What git said of HEAD both times is the same up to blanks around it, a failure counting as blank. */
  predicate SameHead(before: Option<string>, now: Option<string>) {
    match (before, now)
    case (None, None) => true
    case (Some(was), None) => Strip(was) == ""
    case (None, Some(text)) => Strip(text) == ""
    case (Some(was), Some(text)) => Strip(was) == Strip(text)
  }

  /** The success step `e`, taken in world `b`, vouches for a commit in world `w`: same non-empty
      tree, same HEAD, at most as many minutes ago, but at least one, and signed as the present key signs. */
  predicate Vouches(mac: Mac, b: World, e: Event, w: World, minutes: int) {
    && e.OnSuccess? && SameTree(b.repo.treeOut, w.repo.treeOut) && SameHead(b.repo.headOut, w.repo.headOut)
    && w.now - b.now <= (if minutes < 1 then 1 else minutes) * 60_000_000
    && SameSignature(mac, b, e, w)
  }

  ghost predicate DigestsAreNonEmpty(mac: Mac) {
    forall k, v, t, h, i :: mac(k, v, t, h, i) != ""
  }

  lemma HeadAndTreeAreStripped(repo: Repo)
    ensures Strip(Head(repo)) == Head(repo)
    ensures repo.treeOut.Some? ==> Strip(Tree(repo)) == Tree(repo)
  {
    hide Strip;
    if repo.headOut.Some? { StripIdempotent(repo.headOut.value); }
    if repo.treeOut.Some? { StripIdempotent(repo.treeOut.value); }
    assert Strip("") == "" by { StripOfNothing(); }
  }

  lemma StripOfNothing()
    ensures Strip("") == ""
  {
  }

  /** What a success step leaves passes later exactly when that step vouches for the commit. */
  lemma MarkerPassesIff(mac: Mac, b: World, e: Event, w: World, minutes: int)
    requires DigestsAreNonEmpty(mac) && e.OnSuccess? && b.repo.treeOut.Some?
    requires w.files.marker == Step(mac, b, e).files.marker
    ensures PassesClean(mac, w, minutes) <==> Vouches(mac, b, e, w, minutes)
  {
    hide Strip;
    HeadAndTreeAreStripped(b.repo);
    SameByText(b.repo, w.repo);
    hide SameTree, SameHead, Tree, Head;
  }

  lemma SameByText(b: Repo, w: Repo)
    ensures SameTree(b.treeOut, w.treeOut) <==> b.treeOut.Some? && w.treeOut.Some? && Tree(b) == Tree(w) != ""
    ensures SameHead(b.headOut, w.headOut) <==> Head(b) == Head(w)
  {
    hide Strip;
  }

  lemma UnmarkedStepKeepsMarker(mac: Mac, w: World, e: Event)
    requires !Marks(w, e)
    ensures Step(mac, w, e).files.marker == w.files.marker
  {
  }

  lemma {:induction false} MarkerSince(mac: Mac, w: World, run: seq<Event>, i: nat)
    requires i <= |run| && forall j :: i <= j < |run| ==> !Marks(After(mac, w, run[..j]), run[j])
    ensures After(mac, w, run).files.marker == After(mac, w, run[..i]).files.marker
  {
    hide Step, Marks;
    var n := |run| - 1;
    if i < |run| {
      var init := run[..n];
      assert forall j :: 0 <= j <= n ==> init[..j] == run[..j];
      MarkerSince(mac, w, init, i);
      UnmarkedStepKeepsMarker(mac, After(mac, w, init), run[n]);
    } else {
      assert run[..i] == run;
    }
  }

  lemma {:induction false} FindLastMark(mac: Mac, w: World, run: seq<Event>) returns (i: nat)
    ensures i <= |run| && forall j :: i <= j < |run| ==> !Marks(After(mac, w, run[..j]), run[j])
    ensures i > 0 ==> LastMark(mac, w, run, i - 1)
  {
    hide Marks, After;
    i := |run|;
    while i > 0 && !Marks(After(mac, w, run[..i - 1]), run[i - 1])
      invariant i <= |run| && forall j :: i <= j < |run| ==> !Marks(After(mac, w, run[..j]), run[j])
    {
      i := i - 1;
    }
  }

  /** Over every run from a repository without a marker: prepare passes without breakglass
      exactly when the last start-or-success step was a success that vouches for the commit. */
  lemma CleanPassIff(mac: Mac, w: World, run: seq<Event>, minutes: int)
    requires DigestsAreNonEmpty(mac) && w.files.marker.None?
    ensures PassesClean(mac, After(mac, w, run), minutes)
            <==> exists i: nat :: LastMark(mac, w, run, i)
                             && Vouches(mac, After(mac, w, run[..i]), run[i], After(mac, w, run), minutes)
  {
    hide Vouches, After, PassesClean, Step;
    var n := FindLastMark(mac, w, run);
    MarkerSince(mac, w, run, n);
    var end := After(mac, w, run);
    if n == 0 {
      assert run[..0] == [];
      assert After(mac, w, []) == w by { AfterNothing(mac, w); }
      NoMarkerNoPass(mac, end, minutes);
      forall j: nat ensures !LastMark(mac, w, run, j) {
      }
    } else {
      var i := n - 1;
      var b := After(mac, w, run[..i]);
      assert run[..n][..i] == run[..i];
      assert After(mac, w, run[..n]) == Step(mac, b, run[i]) by { AfterStep(mac, w, run[..n]); }
      if run[i].OnSuccess? {
        MarkerPassesIff(mac, b, run[i], end, minutes);
      } else {
        StartNeverPasses(mac, b, run[i], end, minutes);
      }
      forall j | LastMark(mac, w, run, j) ensures j == i {
      }
    }
  }

  lemma AfterNothing(mac: Mac, w: World)
    ensures After(mac, w, []) == w
  {
  }

  lemma AfterStep(mac: Mac, w: World, run: seq<Event>)
    requires run != []
    ensures After(mac, w, run) == Step(mac, After(mac, w, run[..|run| - 1]), run[|run| - 1])
  {
  }

  lemma NoMarkerNoPass(mac: Mac, w: World, minutes: int)
    requires w.files.marker.None?
    ensures !PassesClean(mac, w, minutes)
  {
  }

  lemma StartNeverPasses(mac: Mac, b: World, e: Event, w: World, minutes: int)
    requires e.OnStart? && w.files.marker == Step(mac, b, e).files.marker
    ensures !PassesClean(mac, w, minutes) && !Vouches(mac, b, e, w, minutes)
  {
  }

  // ---------------------------------------------------------------- consequences

  /** Ticks of the clock and attempts to commit. */
  predicate Quiet(e: Event) { e.OnTick? || e.OnPrepare? }

  lemma QuietStep(mac: Mac, w: World, e: Event)
    requires Quiet(e)
    ensures var v := Step(mac, w, e);
            v.repo == w.repo && v.files.marker == w.files.marker && v.files.key == w.files.key
  {
    hide Truthy, Cleaned;
  }

  lemma {:induction false} QuietRun(mac: Mac, w: World, quiet: seq<Event>)
    requires forall e :: e in quiet ==> Quiet(e)
    ensures var v := After(mac, w, quiet);
            v.repo == w.repo && v.files.marker == w.files.marker && v.files.key == w.files.key
  {
    hide Step, Quiet;
    if quiet != [] {
      var n := |quiet| - 1;
      QuietRun(mac, w, quiet[..n]);
      QuietStep(mac, After(mac, w, quiet[..n]), quiet[n]);
    }
  }

  /** After a success on a tree git could write and a key, with index, HEAD and key left alone,
      commits pass without breakglass exactly until the marker is too old. */
  lemma FreshSuccessPassesUntilStale(mac: Mac, w: World, e: Event, quiet: seq<Event>, minutes: int)
    requires DigestsAreNonEmpty(mac) && e.OnSuccess? && w.repo.treeOut.Some? && Tree(w.repo) != ""
    requires KeyOrMinted(w.files.key, e.minted, e.keyWritable).Some?
    requires forall q :: q in quiet ==> Quiet(q)
    ensures var end := After(mac, Step(mac, w, e), quiet);
            PassesClean(mac, end, minutes) <==> end.now - w.now <= (if minutes < 1 then 1 else minutes) * 60_000_000
  {
    hide After, Strip, PassesClean, MarkerSignature;
    QuietRun(mac, Step(mac, w, e), quiet);
    MarkerPassesIff(mac, w, e, After(mac, Step(mac, w, e), quiet), minutes);
  }

  /** Prepare lets the commit through without a valid marker. */
  predicate PassesByBreakglass(mac: Mac, w: World, e: Event) {
    e.OnPrepare? && Prepare(mac, w.files, w.now, w.repo, e.minutes, e.env).1.Zero? && !PassesClean(mac, w, e.minutes)
  }

  /** What breakglass takes, on the environment itself: the flag reads as a yes, ticket and reason hold more
      than white space, and sign-in agreed. */
  ghost predicate AsksAndMay(env: Env) {
    && Lower(Strip(env.flag)) in {"1", "true", "yes", "y", "on"}
    && (exists c :: c in env.ticket && !IsSpace(c)) && (exists c :: c in env.reason && !IsSpace(c))
    && env.auth.AuthGranted?
  }

  lemma CleanedIsNothingIff(value: string)
    ensures Cleaned(value) == "" <==> forall c :: c in value ==> IsSpace(c)
  {
    hide IsSpace;
    var words := Words(value);
    if words != [] {
      assert words[0] != "" && Join(words, ' ') != "";
    }
  }

  lemma AuthorizedIff(env: Env)
    ensures Authorized(env) <==> AsksAndMay(env)
  {
    hide Cleaned, Strip, Lower;
    CleanedIsNothingIff(env.ticket);
    CleanedIsNothingIff(env.reason);
  }

  /** A commit gets through without a valid marker exactly when it may on those terms and git can write the
      tree; then the last audit line and the breakglass marker are the record of it: authorized, now, for
      the stripped tree, with ticket and reason single-spaced. */
  lemma BreakglassPassesIff(mac: Mac, w: World, e: Event)
    ensures PassesByBreakglass(mac, w, e)
            <==> e.OnPrepare? && !PassesClean(mac, w, e.minutes) && w.repo.treeOut.Some? && AsksAndMay(e.env)
    ensures PassesByBreakglass(mac, w, e) ==>
              var after := Step(mac, w, e).files;
              && |after.audit| == |w.files.audit| + 1 && after.bypass == Some(after.audit[|w.files.audit|])
              && w.repo.treeOut.Some? && e.env.auth.AuthGranted?
              && EntryReadsSo(e.env, w.now, w.repo, after.audit[|w.files.audit|])
  {
    hide Validate, Truthy, Authorized, Denied, AsksAndMay, Cleaned, Words, Join, Strip;
    if e.OnPrepare? {
      AuthorizedIff(e.env);
      NoTreeNoPass(mac, w, e.minutes);
      if Authorized(e.env) && w.repo.treeOut.Some? {
        EntryReads(e.env, w.now, w.repo);
      }
    }
  }

  lemma EntryReads(env: Env, now: int, repo: Repo)
    requires Authorized(env) && repo.treeOut.Some?
    ensures forall why :: EntryReadsSo(env, now, repo, EntryFor(env, now, repo, why))
    ensures !Denied(env)
  {
    hide Words, Join, Strip, Truthy;
  }

  /** The audit line of an authorized breakglass. */
  ghost predicate EntryReadsSo(env: Env, now: int, repo: Repo, line: Entry)
    requires repo.treeOut.Some? && env.auth.AuthGranted?
  {
    && line.authorized && line.at == now && line.tree == Strip(repo.treeOut.value)
    && line.ticket == Join(Words(env.ticket), ' ') && line.reason == Join(Words(env.reason), ' ')
    && line.actor == if env.auth.actor == "" then env.agent else env.auth.actor
  }

  /** An attempt that asks for breakglass as it should but is denied at sign-in is audited too, as not
      authorized, and changes nothing else. */
  lemma DeniedIsAudited(mac: Mac, w: World, e: Event)
    requires e.OnPrepare? && !PassesClean(mac, w, e.minutes) && w.repo.treeOut.Some? && e.env.auth.AuthDenied?
    requires AsksAndMay(e.env.(auth := AuthGranted("")))
    ensures var after := Step(mac, w, e).files;
            && |after.audit| == |w.files.audit| + 1 && after == w.files.(audit := after.audit)
            && w.files.audit <= after.audit
            && var line := after.audit[|w.files.audit|];
               !line.authorized && line.at == w.now && line.actor == e.env.auth.deniedActor
  {
    hide Validate, Truthy, AsksAndMay, Cleaned, Strip, Tree, Head;
    AuthorizedIff(e.env.(auth := AuthGranted("")));
    NoTreeNoPass(mac, w, e.minutes);
    assert Denied(e.env) && !Authorized(e.env);
    hide Denied, Authorized;
  }

  lemma NoTreeNoPass(mac: Mac, w: World, minutes: int)
    ensures Validate(mac, w.files, w.now, w.repo, minutes).GitFailed? ==> w.repo.treeOut.None?
  {
    hide Tree, Head, Strip, MaxAge, MarkerSignature;
  }

  function BreakglassPasses(mac: Mac, w: World, run: seq<Event>): nat {
    if run == [] then 0
    else
      var n := |run| - 1;
      BreakglassPasses(mac, w, run[..n]) + if PassesByBreakglass(mac, After(mac, w, run[..n]), run[n]) then 1 else 0
  }

  function AuthorizedEntries(audit: seq<Entry>): nat {
    if audit == [] then 0
    else AuthorizedEntries(audit[..|audit| - 1]) + if audit[|audit| - 1].authorized then 1 else 0
  }

  lemma AuditAfterStep(mac: Mac, w: World, e: Event)
    ensures w.files.audit <= Step(mac, w, e).files.audit
    ensures AuthorizedEntries(Step(mac, w, e).files.audit)
            == AuthorizedEntries(w.files.audit) + if PassesByBreakglass(mac, w, e) then 1 else 0
  {
    hide Validate, Authorized, Denied, EntryFor, AuthorizedEntries, Success;
    if e.OnPrepare? && w.repo.treeOut.Some? && (Authorized(e.env) || Denied(e.env)) {
      var why := Validate(mac, w.files, w.now, w.repo, e.minutes);
      if why.Invalid? {
        EntrySaysAuthorized(e.env, w.now, w.repo, why.why);
        OneMoreEntry(w.files.audit, EntryFor(e.env, w.now, w.repo, why.why));
      }
    }
    SuccessKeepsAudit(mac, w, e);
  }

  lemma OneMoreEntry(audit: seq<Entry>, entry: Entry)
    ensures AuthorizedEntries(audit + [entry]) == AuthorizedEntries(audit) + if entry.authorized then 1 else 0
  {
    assert (audit + [entry])[..|audit|] == audit;
  }

  lemma EntrySaysAuthorized(env: Env, now: int, repo: Repo, why: Failure)
    requires (Authorized(env) || Denied(env)) && repo.treeOut.Some?
    ensures EntryFor(env, now, repo, why).authorized <==> Authorized(env)
    ensures !(Authorized(env) && Denied(env))
  {
    hide Truthy, Cleaned, Tree, Head;
  }

  lemma SuccessKeepsAudit(mac: Mac, w: World, e: Event)
    ensures e.OnSuccess? ==> Success(mac, w.files, w.now, w.repo, e.minted, e.keyWritable).audit == w.files.audit
  {
    hide MarkerSignature, Tree, Head;
  }

  /** Over every run the audit log only grows, and holds one authorized line for each commit
      that got through on breakglass and none besides. */
  lemma {:induction false} EveryBreakglassIsAudited(mac: Mac, w: World, run: seq<Event>)
    ensures w.files.audit <= After(mac, w, run).files.audit
    ensures AuthorizedEntries(After(mac, w, run).files.audit)
            == AuthorizedEntries(w.files.audit) + BreakglassPasses(mac, w, run)
  {
    hide Step, PassesByBreakglass, AuthorizedEntries;
    if run != [] {
      var n := |run| - 1;
      EveryBreakglassIsAudited(mac, w, run[..n]);
      AuditAfterStep(mac, After(mac, w, run[..n]), run[n]);
    }
  }

  lemma BypassAfterStep(mac: Mac, w: World, e: Event)
    ensures Step(mac, w, e).files.bypass.Some?
            <==> PassesByBreakglass(mac, w, e) || (w.files.bypass.Some? && !Marks(w, e))
  {
    hide Validate, Authorized, Denied, EntryFor, MarkerSignature, Tree, Head;
    if e.OnPrepare? {
      var passes := Prepare(mac, w.files, w.now, w.repo, e.minutes, e.env).1.Zero?;
      assert passes ==> PassesClean(mac, w, e.minutes) || PassesByBreakglass(mac, w, e);
    }
  }

  /** Step `i` let a commit through on breakglass and no start or success came after it. */
  ghost predicate BypassSince(mac: Mac, w: World, run: seq<Event>, i: nat) {
    && i < |run| && PassesByBreakglass(mac, After(mac, w, run[..i]), run[i])
    && forall j :: i < j < |run| ==> !Marks(After(mac, w, run[..j]), run[j])
  }

  lemma BypassSinceLonger(mac: Mac, w: World, run: seq<Event>, i: nat)
    requires run != [] && i < |run| - 1
    ensures var init, n := run[..|run| - 1], |run| - 1;
            BypassSince(mac, w, run, i) <==> BypassSince(mac, w, init, i) && !Marks(After(mac, w, init), run[n])
  {
    hide Marks, PassesByBreakglass, After;
    var n := |run| - 1;
    var init := run[..n];
    assert forall j :: 0 <= j <= n ==> init[..j] == run[..j];
  }

  /** The breakglass marker stands exactly while a breakglass commit got through after the last
      start or success. */
  lemma {:induction false} BypassMarkerIff(mac: Mac, w: World, run: seq<Event>)
    requires w.files.bypass.None?
    ensures After(mac, w, run).files.bypass.Some? <==> exists i: nat :: BypassSince(mac, w, run, i)
  {
    hide Step, Marks, PassesByBreakglass, BypassSince;
    if run == [] {
      forall i: nat ensures !BypassSince(mac, w, run, i) { BypassSinceBounds(mac, w, run, i); }
    } else {
      var n := |run| - 1;
      BypassMarkerIff(mac, w, run[..n]);
      BypassAfterStep(mac, After(mac, w, run[..n]), run[n]);
      BypassSinceBounds(mac, w, run, n);
      forall i: nat
        ensures i < n ==> (BypassSince(mac, w, run, i)
                <==> BypassSince(mac, w, run[..n], i) && !Marks(After(mac, w, run[..n]), run[n]))
        ensures i > n ==> !BypassSince(mac, w, run, i)
        ensures i >= n ==> !BypassSince(mac, w, run[..n], i)
      {
        if i < n { BypassSinceLonger(mac, w, run, i); }
        BypassSinceBounds(mac, w, run, i);
        BypassSinceBounds(mac, w, run[..n], i);
      }
    }
  }

  lemma BypassSinceBounds(mac: Mac, w: World, run: seq<Event>, i: nat)
    ensures i >= |run| ==> !BypassSince(mac, w, run, i)
    ensures i + 1 == |run| ==> (BypassSince(mac, w, run, i)
            <==> PassesByBreakglass(mac, After(mac, w, run[..i]), run[i]))
  {
  }

  lemma TrailerKeyInTrailer(prefix: string, suffix: string)
    ensures Contains(TRAILER_KEY, Lower(prefix + "Thomas-Breakglass:" + suffix))
  {
    var s := prefix + "Thomas-Breakglass:" + suffix;
    var title := "Thomas-Breakglass:";
    var at := |prefix|;
    assert forall k :: 0 <= k < |title| ==> LowerChar(title[k]) == TRAILER_KEY[k];
    assert forall k :: 0 <= k < |title| ==> s[at + k] == title[k];
    hide LowerChar;
    assert Lower(s)[at..at + |title|] == TRAILER_KEY;
    assert OccursAt(TRAILER_KEY, Lower(s), at);
  }

  /** A message carries a trailer after breakglass, and asking again never adds a second one. */
  lemma TrailerOnce(message: string, env: Env, again: Env)
    requires Authorized(env) && Authorized(again)
    ensures WithTrailer(WithTrailer(message, env), again) == WithTrailer(message, env)
  {
    hide Contains, Lower, TrailerText, TrimRight, Authorized;
    TrailerKeyInTrailer(TrimRight(message, IsSpace) + "\n\n", TrailerText(env));
  }

  predicate HasTrailer(message: string) {
    Contains(TRAILER_KEY, Lower(message)) || Contains("thomas-local-commit-breakglass:", Lower(message))
  }

  lemma CleanedIsOneLine(value: string)
    ensures '\n' !in Cleaned(value)
  {
    assert SepFree(Words(value), '\n') by { assert IsSpace('\n'); }
    JoinSepFree(Words(value), ' ', '\n');
  }

  /** Whatever line breaks ticket, reason and actor hold, a message without a trailer gets exactly
      a blank line and two lines more. */
  lemma TrailerIsTwoLines(message: string, env: Env)
    requires Authorized(env) && !HasTrailer(message)
    ensures var kept := TrimRight(message, IsSpace);
            Split(WithTrailer(message, env), '\n')
            == Split(kept, '\n') + ["", "Thomas-Breakglass:" + Authority(env), ReasonLine(env), ""]
  {
    hide Contains, Lower, TrimRight, Authorized, Authority, ReasonLine;
    var kept, first, second := TrimRight(message, IsSpace), "Thomas-Breakglass:" + Authority(env), ReasonLine(env);
    LinesAreOneLineEach(env);
    Arranged(kept, "Thomas-Breakglass:", Authority(env), second);
    TwoLines(kept, first, second);
  }

  /** The first of the two lines names the ticket and who did it, the second the reason, each single-spaced. */
  lemma TrailerNames(env: Env)
    requires Authorized(env)
    ensures Occurs(Join(Words(env.ticket), ' '), Authority(env))
    ensures Occurs(Join(Words(env.reason), ' '), ReasonLine(env))
    ensures var actor := if env.auth.actor == "" then env.agent else env.auth.actor;
            Occurs(Join(Words(actor), ' '), Authority(env))
  {
    var ticket, reason, actor := Cleaned(env.ticket), Cleaned(env.reason), Cleaned(Actor(env));
    hide Words, Join, Truthy, Occurs, Authorized;
    PartsOccur(" ", ticket, BYPASS_BY, actor);
    PartsOccur(REASON_KEY, reason, "", "");
    assert REASON_KEY + reason + "" + "" == ReasonLine(env);
  }

  lemma PartsOccur(a: string, b: string, c: string, d: string)
    ensures Occurs(b, a + b + c + d) && Occurs(d, a + b + c + d)
  {
    PartOccurs(a, b, c + d);
    PartOccurs(a + b + c, d, "");
    assert a + b + (c + d) == a + b + c + d == a + b + c + d + "";
  }

  lemma PhrasesAreOneLine()
    ensures '\n' !in BYPASS_BY && '\n' !in REASON_KEY
  {
    assert forall i :: 0 <= i < |BYPASS_BY| ==> BYPASS_BY[i] != '\n';
    assert forall i :: 0 <= i < |REASON_KEY| ==> REASON_KEY[i] != '\n';
  }

  lemma OneLineSum(a: string, b: string, c: string, d: string)
    requires '\n' !in a && '\n' !in b && '\n' !in c && '\n' !in d
    ensures '\n' !in a + b + c + d && '\n' !in a + b
  {
  }

  lemma LinesAreOneLineEach(env: Env)
    requires Authorized(env)
    ensures '\n' !in Authority(env) && '\n' !in ReasonLine(env)
  {
    var actor := Actor(env);
    hide Cleaned, Actor, Authorized;
    CleanedIsOneLine(env.ticket);
    CleanedIsOneLine(env.reason);
    CleanedIsOneLine(actor);
    PhrasesAreOneLine();
    OneLineSum(" ", Cleaned(env.ticket), BYPASS_BY, Cleaned(actor));
    OneLineSum(REASON_KEY, Cleaned(env.reason), "", "");
  }

  lemma Arranged(kept: string, title: string, first: string, second: string)
    ensures kept + "\n\n" + title + (first + "\n" + second + "\n")
            == kept + ['\n'] + ("" + ['\n'] + (title + first + ['\n'] + (second + ['\n'] + "")))
  {
  }

  lemma TwoLines(kept: string, first: string, second: string)
    requires '\n' !in first && '\n' !in second
    ensures Split(kept + ['\n'] + ("" + ['\n'] + (first + ['\n'] + (second + ['\n'] + ""))), '\n')
            == Split(kept, '\n') + ["", first, second, ""]
  {
    hide Split;
    SplitSepFree(first, '\n');
    SplitSepFree(second, '\n');
    SplitSepFree("", '\n');
    SplitConcat(second, "", '\n');
    SplitConcat(first, second + ['\n'] + "", '\n');
    SplitConcat("", first + ['\n'] + (second + ['\n'] + ""), '\n');
    SplitConcat(kept, "" + ['\n'] + (first + ['\n'] + (second + ['\n'] + "")), '\n');
  }
}
