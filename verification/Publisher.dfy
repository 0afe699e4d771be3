/**
 Publishing a draft PR to a remote that may lose answers: a fork, a push or a PR creation can take
 effect and still be reported as failed.  Between any two calls others may change the remote and the
 local workspace.  Reads are honest or fail.
 */
module Publisher {
  import opened Results

  type Patch = string

  datatype PullRequest = PullRequest(
    headRef: string, headOwner: string, headOid: string, base: string, isDraft: bool,
    title: string, body: string, isOpen: bool)

  /** One entry of a listing: a pull request under its URL. */
  datatype Item = Item(url: string, pr: PullRequest)

  /** What was approved, and what is about to be published. */
  datatype Target = Target(
    repository: string, login: string, branch: string, base: string, title: string, body: string,
    baseSha: string, patch: Patch)

  /**
   `CheckPassed`: what an approval check saw; `Listed`: whether a listing held a pull request from the
   approved branch, and how many there were; `Viewed`: whether the pull request was open.
   */
  datatype Event =
    | CheckPassed(head: string, patch: Patch, worktree: Patch) | ForkCalled | PushCalled(pushed: string) | CreateCalled
    | Listed(found: bool, total: nat) | Viewed(open: bool)

  predicate Mutation(e: Event) {
    e.ForkCalled? || e.PushCalled? || e.CreateCalled?
  }

  /** A value, the `PublicationError` that was raised instead, or an OSError of a local file. */
  datatype Try<+T> = Done(value: T) | PublicationError | OsError {
    predicate IsFailure() { !Done? }
    function PropagateFailure<U>(): Try<U>
      requires !Done?
    {
      if PublicationError? then PublicationError else OsError
    }
    function Extract(): T
      requires Done?
    {
      value
    }
  }

  // ---- pure checks ----

  predicate Digit(c: char) {
    '0' <= c <= '9'
  }

  /** `https://github.com/<repository>/pull/<number>`, and nothing else. */
  predicate IsPullUrl(url: string, repository: string) {
    var prefix := "https://github.com/" + repository + "/pull/";
    && |prefix| < |url| && prefix <= url && url[|prefix|] != '0'
    && forall i :: |prefix| <= i < |url| ==> Digit(url[i])
  }

  predicate Approved(t: Target, commit: string, item: Item) {
    && IsPullUrl(item.url, t.repository)
    && item.pr.headOid == commit && item.pr.base == t.base && item.pr.isDraft
    && item.pr.title == t.title && item.pr.body == t.body
  }

  /** `_reconciled_pr_url`: none for an empty list, an error for anything but one approved PR. */
  function Reconciled(t: Target, commit: string, items: seq<Item>): Try<Option<string>> {
    if items == [] then Done(None)
    else if |items| == 1 && Approved(t, commit, items[0]) then Done(Some(items[0].url))
    else PublicationError
  }

  /** `_verify_created_pr` on what `gh pr view` showed, if anything. */
  function AfterView(t: Target, commit: string, url: string, viewed: Option<Item>): Try<string> {
    if viewed.None? || Reconciled(t, commit, [viewed.value]) != Done(Some(url)) then PublicationError else Done(url)
  }

  /** The state is not among the fields that are asked for: a closed pull request reconciles like an open one. */
  lemma ReconciliationIgnoresState(t: Target, commit: string, item: Item)
    ensures Reconciled(t, commit, [item]) == Reconciled(t, commit, [item.(pr := item.pr.(isOpen := false))])
  {
  }

  /** So for every target there is a closed pull request that the read-back after a creation returns. */
  lemma ClosedPullRequestIsReturned(t: Target, commit: string) returns (item: Item)
    ensures !item.pr.isOpen && AfterView(t, commit, item.url, Some(item)) == Done(item.url)
  {
    var prefix := "https://github.com/" + t.repository + "/pull/";
    var open := Item(prefix + "1", PullRequest(t.branch, t.login, commit, t.base, true, t.title, t.body, true));
    item := open.(pr := open.pr.(isOpen := false));
    assert open.url[|prefix|] == '1' && open.url[..|prefix|] == prefix;
    assert IsPullUrl(open.url, t.repository);
    assert Reconciled(t, commit, [open]) == Done(Some(open.url));
    ReconciliationIgnoresState(t, commit, open);
  }

  // ---- the preflight ----

  /** `publish` on the open pull requests of the account: one to return, none, or a refusal. */
  function PreflightDecision(t: Target, commit: string, listed: Option<seq<Item>>,
                             maxOpenPrs: nat): Try<Option<string>> {
    if listed.None? || exists i :: i in listed.value && !IsPullUrl(i.url, t.repository) then PublicationError
    else if Matching(t, listed.value) != [] then Reconciled(t, commit, Matching(t, listed.value))
    else if |listed.value| >= maxOpenPrs then PublicationError
    else Done(None)
  }

  /** What reconciliation returns of the matching ones is a listed and approved pull request. */
  lemma MatchingApproved(t: Target, commit: string, items: seq<Item>) returns (item: Item)
    requires Matching(t, items) != [] && Reconciled(t, commit, Matching(t, items)).Done?
    ensures item in items && Approved(t, commit, item)
    ensures Reconciled(t, commit, Matching(t, items)) == Done(Some(item.url))
  {
    item := Matching(t, items)[0];
    assert item in Matching(t, items);
    hide IsPullUrl;
  }

  predicate Mine(t: Target, item: Item) {
    item.pr.headRef == t.branch && item.pr.headOwner == t.login
  }

  /** The publication goes on exactly below the cap,
      with no pull request of the branch; one is returned exactly if it is the only one and as approved. */
  lemma PreflightExactly(t: Target, commit: string, listed: Option<seq<Item>>, maxOpenPrs: nat)
    ensures var (r, proper) := (PreflightDecision(t, commit, listed, maxOpenPrs),
                                listed.Some? && forall i :: i in listed.value ==> IsPullUrl(i.url, t.repository));
            && (r == Done(None) <==>
                  proper && |listed.value| < maxOpenPrs && forall i :: i in listed.value ==> !Mine(t, i))
            && (r.Done? && r.value.Some? ==>
                  proper && exists i ::
                      i in listed.value && Mine(t, i) && i.url == r.value.value && Approved(t, commit, i))
            && (forall i, j ::
                proper && r.Done? && i in listed.value && j in listed.value && Mine(t, i) && Mine(t, j) ==> i == j)
            && !r.OsError?
  {
    if listed.Some? {
      var matching := Matching(t, listed.value);
      assert forall i :: i in matching <==> i in listed.value && Mine(t, i);
      if matching != [] {
        assert matching[0] in matching;
      }
    }
  }

  // ---- the environment ----

  class Workspace {
    var head: string
    var worktree: Patch   // the diff of the working tree against HEAD, empty when it is clean
    var committed: Patch  // the diff of HEAD against the approved base

    constructor (head: string, worktree: Patch)
    {
      this.head, this.worktree, committed := head, worktree, "";
    }

    method Interfere()
      modifies this
    {
      head, worktree, committed := *, *, *;
    }
  }

  class Remote {
    const othersClose: bool  // whether anyone else may close a pull request meanwhile
    var fork: Option<bool>   // the repository at the fork's name, and whether it is a fork of the target
    var branch: Option<string>
    var prs: map<string, PullRequest>
    ghost var log: seq<Event>

    constructor (othersClose: bool, fork: Option<bool>, branch: Option<string>, prs: map<string, PullRequest>)
      ensures this.othersClose == othersClose && log == []
    {
      this.othersClose, this.fork, this.branch, this.prs, log := othersClose, fork, branch, prs, [];
    }

    /** Others act: they may change anything, but close pull requests only where that is allowed. */
    method Interfere()
      modifies this`fork, this`branch, this`prs
      ensures !othersClose ==> forall u :: u in old(prs) && old(prs)[u].isOpen ==> u in prs && prs[u].isOpen
    {
      fork, branch := *, *;
      var next: map<string, PullRequest> := *;
      if othersClose || forall u :: u in prs && prs[u].isOpen ==> u in next && next[u].isOpen {
        prs := next;
      }
    }

    ghost method Note(e: Event)
      modifies this`log
      ensures log == old(log) + [e]
    {
      log := log + [e];
    }

    /** The repository at the fork's name: none on any failure but "not found". */
    method GetFork() returns (r: Option<Option<bool>>)
      modifies this`fork, this`branch, this`prs
      ensures r.Some? ==> r.value == fork
      ensures !othersClose ==> forall u :: u in old(prs) && old(prs)[u].isOpen ==> u in prs && prs[u].isOpen
    {
      Interfere();
      var fails: bool := *;
      r := if fails then None else Some(fork);
    }

    method GetBranch() returns (r: Option<Option<string>>)
      modifies this`fork, this`branch, this`prs
      ensures r.Some? ==> r.value == branch
      ensures !othersClose ==> forall u :: u in old(prs) && old(prs)[u].isOpen ==> u in prs && prs[u].isOpen
    {
      Interfere();
      var fails: bool := *;
      r := if fails then None else Some(branch);
    }

    /** The open pull requests of the repository, or those from one head; none on failure. */
    method ListOpen(t: Target, byHead: bool) returns (r: Option<seq<Item>>)
      modifies this`fork, this`branch, this`prs
      ensures r.Some? ==> forall i :: i in r.value ==> i.url in prs && prs[i.url] == i.pr && i.pr.isOpen
      ensures !othersClose ==> forall u :: u in old(prs) && old(prs)[u].isOpen ==> u in prs && prs[u].isOpen
    {
      Interfere();
      var answer: seq<Item> := *;
      if (forall i :: i in answer ==> i.url in prs && prs[i.url] == i.pr && i.pr.isOpen)
         && (byHead ==> forall i :: i in answer ==> i.pr.headRef == t.branch && i.pr.headOwner == t.login) {
        r := Some(answer);
      } else {
        r := None;
      }
    }

    /** `gh pr view`, which shows a pull request whether it is open or not. */
    method View(url: string) returns (r: Option<Item>)
      modifies this`fork, this`branch, this`prs
      ensures r.Some? ==> r.value.url in prs && prs[r.value.url] == r.value.pr
      ensures !othersClose ==> forall u :: u in old(prs) && old(prs)[u].isOpen ==> u in prs && prs[u].isOpen
    {
      Interfere();
      var fails: bool := *;
      r := if fails || url !in prs then None else Some(Item(url, prs[url]));
    }

    method Fork() returns (reported: bool)
      modifies this
      ensures log == old(log) + [ForkCalled]
      ensures !othersClose ==> forall u :: u in old(prs) && old(prs)[u].isOpen ==> u in prs && prs[u].isOpen
    {
      Interfere();
      Note(ForkCalled);
      var done: bool := *;
      if done {
        fork := Some(true);
      }
      reported := *;
    }

    method Push(pushed: string) returns (reported: bool)
      modifies this
      ensures log == old(log) + [PushCalled(pushed)]
      ensures !othersClose ==> forall u :: u in old(prs) && old(prs)[u].isOpen ==> u in prs && prs[u].isOpen
    {
      Interfere();
      Note(PushCalled(pushed));
      var done: bool := *;
      if done {
        branch := Some(pushed);
      }
      reported := *;
    }

    /**
     `gh pr create --draft`: opens a draft PR from the branch as it is now, or not, and succeeds, or
     not.  What it prints on success is an open pull request's URL, or no pull request URL at all.
     */
    method Create(t: Target) returns (reported: bool, printed: Option<string>)
      modifies this
      ensures log == old(log) + [CreateCalled]
      ensures printed.Some? && IsPullUrl(printed.value, t.repository) ==>
          printed.value in prs && prs[printed.value].isOpen
      ensures !othersClose ==> forall u :: u in old(prs) && old(prs)[u].isOpen ==> u in prs && prs[u].isOpen
    {
      Interfere();
      Note(CreateCalled);
      var done: bool := *;
      var url: string := *;
      if done && branch.Some? && url !in prs {
        prs := prs[url := PullRequest(t.branch, t.login, branch.value, t.base, true, t.title, t.body, true)];
      }
      reported := *;
      var named: string := *;
      printed := if !IsPullUrl(named, t.repository) || (named in prs && prs[named].isOpen) then Some(named) else None;
    }
  }

  // ---- what the log of remote calls must look like ----

  /** The last event is an approval check that passed: HEAD, the committed patch and the tree were right. */
  predicate JustChecked(log: seq<Event>, digest: Patch -> string, t: Target, commit: string) {
    |log| > 0 && log[|log| - 1].CheckPassed? && log[|log| - 1].head == commit
    && digest(log[|log| - 1].patch) == digest(t.patch) && log[|log| - 1].worktree == ""
  }

  /** Every remote mutation directly follows an approval check that passed on the approved patch. */
  predicate Guarded(log: seq<Event>, digest: Patch -> string, t: Target, commit: string) {
    forall k :: 0 <= k < |log| && Mutation(log[k]) ==> JustChecked(log[..k], digest, t, commit)
  }

  function CountCreates(log: seq<Event>): nat {
    if log == [] then 0 else CountCreates(log[..|log| - 1]) + if log[|log| - 1].CreateCalled? then 1 else 0
  }

  predicate Matched(e: Event) {
    e.Listed? && e.found
  }

  /** No listing so far held a pull request from the approved branch. */
  predicate NoMatch(log: seq<Event>) {
    forall k :: 0 <= k < |log| ==> !Matched(log[k])
  }

  /** The remote is touched only after a first listing below the cap. */
  predicate BelowCap(log: seq<Event>, maxOpenPrs: nat) {
    (exists k :: 0 <= k < |log| && Mutation(log[k])) ==> log[0].Listed? && !log[0].found && log[0].total < maxOpenPrs
  }

  /** Nothing on the remote is touched after a listing that did. */
  predicate QuietAfterMatch(log: seq<Event>) {
    forall i, j :: 0 <= i < j < |log| && Matched(log[i]) ==> !Mutation(log[j])
  }

  lemma LastMatchIsQuiet(log: seq<Event>, e: Event)
    requires NoMatch(log)
    ensures QuietAfterMatch(log) && QuietAfterMatch(log + [e])
    ensures !Matched(e) ==> NoMatch(log + [e])
  {
  }

  lemma NothingLogged(digest: Patch -> string, t: Target, commit: string)
    ensures Guarded([], digest, t, commit) && CountCreates([]) == 0 && NoMatch([]) && QuietAfterMatch([])
  {
  }

  /** One more remote call keeps the discipline of the whole log. */
  lemma GuardedStep(log: seq<Event>, e: Event, digest: Patch -> string, t: Target, commit: string)
    requires Guarded(log, digest, t, commit)
    requires Mutation(e) ==> JustChecked(log, digest, t, commit)
    ensures Guarded(log + [e], digest, t, commit)
    ensures CountCreates(log + [e]) == CountCreates(log) + if e.CreateCalled? then 1 else 0
    ensures NoMatch(log) && !Matched(e) ==> NoMatch(log + [e])
  {
    hide JustChecked;
    var more := log + [e];
    assert more[..|log|] == log;
    forall k | 0 <= k < |more| && Mutation(more[k])
      ensures JustChecked(more[..k], digest, t, commit)
    {
      assert more[..k] == log[..k];
      assert k == |log| ==> log[..k] == log;
    }
  }

  // ---- the publisher ----

  class GhPublisher {
    const remote: Remote
    const workspace: Workspace
    const digest: Patch -> string
    const maxOpenPrs: nat
    var helperFile: bool   // whether the askpass helper exists, and whether `helper` names it
    var helperKnown: bool
    var bodyFile: bool     // likewise for the file with the pull request's body
    var bodyKnown: bool
    ghost var stranded: bool  // preparing the helper raised after the file was there

    constructor (remote: Remote, workspace: Workspace, digest: Patch -> string, maxOpenPrs: nat)
      ensures this.remote == remote && this.workspace == workspace
      ensures this.digest == digest && this.maxOpenPrs == maxOpenPrs
      ensures NoFiles()
    {
      this.remote, this.workspace, this.digest, this.maxOpenPrs := remote, workspace, digest, maxOpenPrs;
      helperFile, helperKnown, bodyFile, bodyKnown, stranded := false, false, false, false, false;
    }

    ghost predicate NoFiles()
      reads this
    {
      !helperFile && !helperKnown && !bodyFile && !bodyKnown && !stranded
    }

    /** A file that exists is named by its variable, unless its preparation raised. */
    ghost predicate FilesKnown()
      reads this
    {
      (helperFile ==> helperKnown || stranded) && (stranded ==> helperFile && !helperKnown) && (bodyFile ==> bodyKnown)
    }

    ghost predicate Sound(t: Target, commit: string)
      reads remote
    {
      Guarded(remote.log, digest, t, commit)
    }

    /** `validate_committed_approval`: expiry and bundle integrity may fail at any time. */
    method ApprovalCheck(t: Target, commit: string) returns (r: Try<()>)
      requires Sound(t, commit)
      modifies workspace, remote`log
      ensures Sound(t, commit) && CountCreates(remote.log) == CountCreates(old(remote.log))
      ensures NoMatch(old(remote.log)) ==> NoMatch(remote.log)
      ensures r.Done? ==> JustChecked(remote.log, digest, t, commit)
      ensures !r.OsError?
      ensures old(remote.log) <= remote.log
    {
      workspace.Interfere();
      var expired: bool := *;
      if expired || workspace.head != commit || digest(workspace.committed) != digest(t.patch)
          || workspace.worktree != "" {
        return PublicationError;
      }
      GuardedStep(remote.log, CheckPassed(workspace.head, workspace.committed, workspace.worktree), digest, t, commit);
      remote.Note(CheckPassed(workspace.head, workspace.committed, workspace.worktree));
      r := Done(());
    }

    method EnsureFork(t: Target, commit: string) returns (r: Try<()>)
      requires Sound(t, commit) && NoMatch(remote.log)
      modifies workspace, remote
      ensures Sound(t, commit) && CountCreates(remote.log) == CountCreates(old(remote.log)) && NoMatch(remote.log)
      ensures !r.OsError? && (r.Done? ==> remote.fork == Some(true))
      ensures old(remote.log) <= remote.log
    {
      hide Guarded, CountCreates, NoMatch;
      var existing := remote.GetFork();
      if existing.None? {
        return PublicationError;
      }
      if existing.value.Some? {
        return if existing.value.value then Done(()) else PublicationError;
      }
      var _ :- ApprovalCheck(t, commit);
      GuardedStep(remote.log, ForkCalled, digest, t, commit);
      var forked := remote.Fork();
      if !forked {
        return PublicationError;
      }
      for i := 0 to 15
        invariant Sound(t, commit) && CountCreates(remote.log) == CountCreates(old(remote.log)) && NoMatch(remote.log)
        invariant old(remote.log) <= remote.log
      {
        var ready := remote.GetFork();
        if ready == Some(Some(true)) {
          return Done(());
        }
      }
      r := PublicationError;
    }

    /** The askpass helper: written, made executable, and only then returned to the caller. */
    method AuthenticatedGitEnv() returns (r: Try<()>)
      requires !helperFile && !stranded
      modifies this`helperFile, this`stranded
      ensures !r.PublicationError?
      ensures if r.Done? then helperFile && !stranded else stranded == helperFile
    {
      var written: bool := *;
      if !written {
        helperFile := *;  // what a failed write leaves
        stranded := helperFile;
        return OsError;
      }
      helperFile := true;
      var ready: bool := *;  // the mode and the publisher's home directory
      if !ready {
        stranded := true;
        return OsError;
      }
      r := Done(());
    }

    /** Bring the branch to the approved commit; a reported failure is reconciled by reading back. */
    method EnsureBranch(t: Target, commit: string) returns (r: Try<()>)
      requires Sound(t, commit) && NoMatch(remote.log) && NoFiles()
      modifies this`helperFile, this`helperKnown, this`stranded, workspace, remote
      ensures Sound(t, commit) && CountCreates(remote.log) == CountCreates(old(remote.log)) && NoMatch(remote.log)
      ensures FilesKnown() && (stranded ==> r.OsError?)
      ensures r.Done? ==>
          remote.branch == Some(commit)
          || (|remote.log| > 0 && remote.log[|remote.log| - 1] == PushCalled(workspace.head))
      ensures old(remote.log) <= remote.log
    {
      hide Guarded, CountCreates, NoMatch;
      var found := remote.GetBranch();
      if found.None? {
        return PublicationError;
      }
      if found.value.Some? {
        return if found.value.value == commit then Done(()) else PublicationError;
      }
      var token: bool := *;
      if !token {
        return PublicationError;
      }
      var _ :- AuthenticatedGitEnv();
      helperKnown := true;
      var checked := ApprovalCheck(t, commit);
      var pushed := false;
      if checked.Done? {
        workspace.Interfere();
        GuardedStep(remote.log, PushCalled(workspace.head), digest, t, commit);
        pushed := remote.Push(workspace.head);
      }
      if !pushed {
        var after := remote.GetBranch();
        if after != Some(Some(commit)) {
          return PublicationError;
        }
      }
      r := Done(());
    }

    /** A listing by head, with its entry in the log. */
    method ListByHead(t: Target, commit: string) returns (r: Option<seq<Item>>)
      requires Sound(t, commit) && NoMatch(remote.log)
      modifies remote`fork, remote`branch, remote`prs, remote`log
      ensures Sound(t, commit) && CountCreates(remote.log) == CountCreates(old(remote.log))
      ensures QuietAfterMatch(remote.log)
      ensures r.None? || r.value == [] ==> NoMatch(remote.log)
      ensures r.Some? ==> remote.log == old(remote.log) + [Listed(r.value != [], |r.value|)]
      ensures r.Some? ==> forall i :: i in r.value ==> i.url in remote.prs && remote.prs[i.url] == i.pr && i.pr.isOpen
      ensures !remote.othersClose ==>
        forall u :: u in old(remote.prs) && old(remote.prs)[u].isOpen ==> u in remote.prs && remote.prs[u].isOpen
      ensures old(remote.log) <= remote.log
    {
      r := remote.ListOpen(t, true);
      if r.Some? {
        GuardedStep(remote.log, Listed(r.value != [], |r.value|), digest, t, commit);
        LastMatchIsQuiet(remote.log, Listed(r.value != [], |r.value|));
        remote.Note(Listed(r.value != [], |r.value|));
      } else {
        LastMatchIsQuiet(remote.log, Viewed(true));
      }
    }

    /** A pull request that is returned is the approved draft, and open unless the last view showed it closed. */
    ghost predicate Returned(t: Target, commit: string, url: string)
      reads remote
    {
      && |remote.log| > 0 && url in remote.prs && IsPullUrl(url, t.repository)
      && remote.prs[url].headOid == commit && remote.prs[url].base == t.base && remote.prs[url].isDraft
      && remote.prs[url].title == t.title && remote.prs[url].body == t.body
      && (remote.prs[url].isOpen <==> remote.log[|remote.log| - 1] != Viewed(false))
    }

    /** Create the draft PR, or find it when the creation was reported as failed; then read it back. */
    method CreateAndVerify(t: Target, commit: string) returns (r: Try<string>)
      requires Sound(t, commit) && NoMatch(remote.log)
      modifies this`bodyFile, this`bodyKnown, workspace, remote
      ensures Sound(t, commit) && CountCreates(remote.log) <= CountCreates(old(remote.log)) + 1
      ensures QuietAfterMatch(remote.log) && (bodyFile ==> bodyKnown || old(bodyFile))
      ensures r.Done? ==> Returned(t, commit, r.value)
      ensures r.Done? && !remote.othersClose ==> remote.prs[r.value].isOpen
      ensures old(remote.log) <= remote.log
    {
      hide Guarded, CountCreates, IsPullUrl, NoMatch, QuietAfterMatch;
      var made: bool := *;
      if !made {
        LastMatchIsQuiet(remote.log, Viewed(true));
        return OsError;
      }
      bodyFile, bodyKnown := true, true;
      var reported, created := false, None;
      var checked := ApprovalCheck(t, commit);
      if checked.Done? {
        GuardedStep(remote.log, CreateCalled, digest, t, commit);
        reported, created := remote.Create(t);
      }
      LastMatchIsQuiet(remote.log, Viewed(true));
      if !reported {  // a failed check and a reported failure are reconciled alike
        var listed := ListByHead(t, commit);
        var url := Reconciled(t, commit, if listed.Some? then listed.value else []);
        if !url.Done? || url.value.None? {
          return PublicationError;
        }
        return Done(url.value.value);
      }
      if created.None? || !IsPullUrl(created.value, t.repository) {
        return PublicationError;
      }
      var viewed := remote.View(created.value);
      if viewed.Some? {
        LastMatchIsQuiet(remote.log, Viewed(viewed.value.pr.isOpen));
        GuardedStep(remote.log, Viewed(viewed.value.pr.isOpen), digest, t, commit);
        remote.Note(Viewed(viewed.value.pr.isOpen));
      }
      r := AfterView(t, commit, created.value, viewed);
    }

    /** `validate_approval` and the other checks before anything is written; what they saw of the workspace. */
    method ValidateApproval(t: Target) returns (r: Try<()>, ghost seen: (string, Patch))
      modifies workspace
      ensures seen == (workspace.head, workspace.worktree)
      ensures r.Done? ==> seen.0 == t.baseSha && digest(seen.1) == digest(t.patch)
      ensures !r.OsError?
    {
      workspace.Interfere();
      var unusable: bool := *;  // authorization, identity, expiry, Git configuration
      if unusable || workspace.head != t.baseSha || digest(workspace.worktree) != digest(t.patch) {
        return PublicationError, (workspace.head, workspace.worktree);
      }
      r, seen := Done(()), (workspace.head, workspace.worktree);
    }

    /** The commit of the approved patch, checked against it before anything remote happens. */
    method CommitApproved(t: Target) returns (r: Try<string>, ghost seen: (string, Patch))
      modifies workspace
      ensures r.Done? ==> seen.0 == t.baseSha && digest(seen.1) == digest(t.patch)
      ensures r.Done? ==> workspace.committed == t.patch && workspace.worktree == ""
      ensures !r.OsError?
    {
      var validated, approved := ValidateApproval(t);
      seen := approved;
      var _ :- validated;
      workspace.Interfere();
      var commit := workspace.head;
      workspace.Interfere();
      if workspace.committed != t.patch || workspace.worktree != "" {
        return PublicationError, seen;
      }
      r := Done(commit);
    }

    /** The preflight over all open pull requests of the account: one to return, or none. */
    method Preflight(t: Target, commit: string) returns (r: Try<Option<string>>, ghost listed: Option<seq<Item>>)
      requires remote.log == []
      modifies remote`fork, remote`branch, remote`prs, remote`log
      ensures Sound(t, commit) && CountCreates(remote.log) == 0 && QuietAfterMatch(remote.log)
      ensures r == PreflightDecision(t, commit, listed, maxOpenPrs)
      ensures r.Done? ==> remote.log == [Listed(r.value.Some?, |listed.value|)]
      ensures |remote.log| <= 1 && forall k :: 0 <= k < |remote.log| ==> remote.log[k].Listed?
      ensures r.Done? && r.value.None? ==> NoMatch(remote.log)
      ensures r.Done? && r.value.Some? ==>
        Returned(t, commit, r.value.value) && remote.prs[r.value.value].isOpen
    {
      hide IsPullUrl, Reconciled, Matching, Guarded, CountCreates, NoMatch, QuietAfterMatch;
      NothingLogged(digest, t, commit);
      var open := remote.ListOpen(t, false);
      listed := open;
      if open.None? || exists i :: i in open.value && !IsPullUrl(i.url, t.repository) {
        return PublicationError, listed;
      }
      var matching := Matching(t, open.value);
      GuardedStep(remote.log, Listed(matching != [], |open.value|), digest, t, commit);
      LastMatchIsQuiet(remote.log, Listed(matching != [], |open.value|));
      remote.Note(Listed(matching != [], |open.value|));
      if matching == [] {
        r := if |open.value| >= maxOpenPrs then PublicationError else Done(None);
        return r, listed;
      }
      r := Reconciled(t, commit, matching);
      if r.Done? {
        var item := MatchingApproved(t, commit, open.value);
        assert remote.prs[item.url] == item.pr && item.pr.isOpen;
      }
    }

    /** Fork, branch, a last listing, and only then the creation. */
    method PrepareAndCreate(t: Target, commit: string) returns (r: Try<string>)
      requires Sound(t, commit) && CountCreates(remote.log) == 0 && NoMatch(remote.log) && NoFiles()
      modifies this, workspace, remote
      ensures Sound(t, commit) && CountCreates(remote.log) <= 1 && QuietAfterMatch(remote.log)
      ensures FilesKnown() && (stranded ==> r.OsError?)
      ensures r.Done? ==> Returned(t, commit, r.value)
      ensures r.Done? && !remote.othersClose ==> remote.prs[r.value].isOpen
      ensures old(remote.log) <= remote.log
    {
      hide Guarded, CountCreates, NoMatch, QuietAfterMatch, IsPullUrl;
      var forked := EnsureFork(t, commit);
      LastMatchIsQuiet(remote.log, Viewed(true));
      var _ :- forked;
      var ready := EnsureBranch(t, commit);
      LastMatchIsQuiet(remote.log, Viewed(true));
      var _ :- ready;
      var listed := ListByHead(t, commit);
      if listed.None? {
        return PublicationError;
      }
      var url :- Reconciled(t, commit, listed.value);
      if url.Some? {
        return Done(url.value);
      }
      r := CreateAndVerify(t, commit);
    }

    /** The steps of `publish` after the commit. */
    method PublishCommit(t: Target, commit: string) returns (r: Try<string>)
      requires remote.log == [] && NoFiles()
      modifies this, workspace, remote
      ensures Guarded(remote.log, digest, t, commit)
      ensures CountCreates(remote.log) <= 1 && QuietAfterMatch(remote.log) && BelowCap(remote.log, maxOpenPrs)
      ensures FilesKnown() && (stranded ==> r.OsError?)
      ensures r.Done? ==> Returned(t, commit, r.value)
      ensures r.Done? && !remote.othersClose ==> remote.prs[r.value].isOpen
    {
      hide Guarded, CountCreates, NoMatch, QuietAfterMatch, Approved, PreflightDecision;
      var looked, listed := Preflight(t, commit);
      PreflightExactly(t, commit, listed, maxOpenPrs);
      var existing :- looked;
      if existing.Some? {
        return Done(existing.value);
      }
      r := PrepareAndCreate(t, commit);
    }

    /** `publish`, with its `finally`: files go by the names that the variables hold. */
    method Publish(t: Target) returns (r: Try<(string, string)>)
      requires remote.log == [] && NoFiles()
      modifies this, workspace, remote
      ensures !bodyFile && (helperFile <==> stranded) && (stranded ==> r.OsError?)
      ensures CountCreates(remote.log) <= 1 && QuietAfterMatch(remote.log) && BelowCap(remote.log, maxOpenPrs)
      ensures exists commit :: Guarded(remote.log, digest, t, commit)
      ensures r.Done? ==> Guarded(remote.log, digest, t, r.value.0)
      ensures r.Done? ==> Returned(t, r.value.0, r.value.1)
      ensures r.Done? && !remote.othersClose ==> remote.prs[r.value.1].isOpen
    {
      var committed, _ := CommitApproved(t);
      if !committed.Done? {
        assert Guarded(remote.log, digest, t, "");
        return PublicationError;
      }
      var published := PublishCommit(t, committed.value);
      if helperKnown {
        helperFile := false;
      }
      if bodyKnown {
        bodyFile := false;
      }
      var url :- published;
      r := Done((committed.value, url));
    }
  }

  /** The listed pull requests from the approved branch of the approved account. */
  function Matching(t: Target, items: seq<Item>): (r: seq<Item>)
    ensures forall i :: i in r <==> i in items && i.pr.headRef == t.branch && i.pr.headOwner == t.login
  {
    if items == [] then []
    else
      var mine := items[0].pr.headRef == t.branch && items[0].pr.headOwner == t.login;
      (if mine then [items[0]] else []) + Matching(t, items[1..])
  }
}
