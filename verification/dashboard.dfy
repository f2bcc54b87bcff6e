/** The folder browser view: its state, the folder-click handler, the
    token-guarded effect that runs whenever the path changes, the reducer
    that folds a listing reply into the state, and what the view renders.

    The HTTP request is abstracted into `ListOutcome`; the reducer applies a
    reply whatever the current path is, exactly as the view does, and the
    trace lemmas at the end make that "last reply wins" behaviour explicit.
 */
module Dashboard {
  import opened JsValues
  import FolderPath

  datatype DashboardState = DashboardState(
    folders: seq<string>,
    files: seq<string>,
    errorMessage: string,
    currentPath: string)

  /** What a `/list` request came back with: a reply carrying a status and
      the two (possibly absent) arrays of its body, or a thrown error.

      The request rejects every status outside 2xx, so `Replied` only carries
      2xx replies and a non-2xx reply is `Threw`. A 2xx reply with a `null`
      body also lands in `Threw`, because reading `folders` off it throws
      inside the `try`; a body that is a string or an object without the
      arrays is `Replied` with `None` for the missing ones. */
  datatype ListOutcome =
    | Replied(status: SuccessStatus, folders: Option<seq<string>>, files: Option<seq<string>>)
    | Threw

  /** What the path-change effect does: leave for the login route, or fetch a
      listing of `path` with `token` as bearer credential. */
  datatype Effect = Redirect(route: string) | Fetch(token: string, path: string)

  const LoginRoute: string := "/login"
  const MsgNoContents: string := "No folders or files found in this folder."
  const MsgFetchFailed: string := "Failed to fetch contents. Please try again later."
  const MsgFetchError: string := "Error occurred while fetching contents."

  /** The state the view mounts with: nothing listed, no error, at the root. */
  function Initial(): (s: DashboardState)
    ensures s.folders == [] && s.files == []
    ensures s.errorMessage == ""
    ensures s.currentPath == ""
    ensures !ShowsError(s) && ShowsNoFolders(s) && ShowsNoFiles(s)
  {
    DashboardState([], [], "", "")
  }

  /** A reply that replaces the listing: status 200 with both arrays present. */
  predicate IsListing(o: ListOutcome) {
    o.Replied? && o.status == 200 && TruthyList(o.folders) && TruthyList(o.files)
  }

  /** Clicking a folder moves to its child path and touches nothing else. */
  function FolderClick(s: DashboardState, name: string): (r: DashboardState)
    ensures r.currentPath == FolderPath.ChildPath(s.currentPath, name)
    ensures r.folders == s.folders && r.files == s.files && r.errorMessage == s.errorMessage
  {
    s.(currentPath := FolderPath.ChildPath(s.currentPath, name))
  }

  /** The effect run on mount and on every change of path: without a truthy
      token it redirects and fetches nothing, otherwise it fetches exactly
      the current path with that token. */
  function PathEffect(token: Option<string>, path: string): (e: Effect)
    ensures !TruthyString(token) <==> e.Redirect?
    ensures e.Redirect? ==> e.route == LoginRoute
    ensures e.Fetch? ==> e.path == path && Some(e.token) == token
  {
    if !TruthyString(token) then Redirect(LoginRoute) else Fetch(token.value, path)
  }

  /** The effect a folder click triggers: the effect depends on the path, so
      it runs again only when the click actually changes the path, which
      fails to happen exactly for the empty name at the root. */
  function ClickEffect(s: DashboardState, name: string, token: Option<string>): (r: Option<Effect>)
    ensures r == None <==> (s.currentPath == "" && name == "")
    ensures r.Some? ==> r.value == PathEffect(token, FolderClick(s, name).currentPath)
  {
    var next := FolderClick(s, name);
    if next.currentPath == s.currentPath then None else Some(PathEffect(token, next.currentPath))
  }

  /** The message a reply leaves in the view; empty exactly for a listing. */
  function ReplyMessage(o: ListOutcome): (m: string)
    ensures m == "" <==> IsListing(o)
    ensures m in {"", MsgNoContents, MsgFetchFailed, MsgFetchError}
  {
    match o
    case Threw => MsgFetchError
    case Replied(status, folders, files) =>
      if status != 200 then MsgFetchFailed
      else if TruthyList(folders) && TruthyList(files) then ""
      else MsgNoContents
  }

  /** Fold a `/list` outcome into the state. A listing replaces both arrays
      and clears the error; every other outcome keeps the arrays and sets a
      non-empty error. The current path is neither read nor written. */
  function ApplyReply(s: DashboardState, o: ListOutcome): (r: DashboardState)
    ensures r.currentPath == s.currentPath
    ensures IsListing(o) ==> r.folders == o.folders.value && r.files == o.files.value && r.errorMessage == ""
    ensures !IsListing(o) ==> r.folders == s.folders && r.files == s.files && r.errorMessage != ""
  {
    if IsListing(o) then s.(folders := o.folders.value, files := o.files.value, errorMessage := "")
    else s.(errorMessage := ReplyMessage(o))
  }

  /** The error paragraph is rendered iff the error is non-empty. */
  predicate ShowsError(s: DashboardState) {
    s.errorMessage != ""
  }

  /** "No folders found." is rendered iff there are no folders to list. */
  predicate ShowsNoFolders(s: DashboardState) {
    |s.folders| == 0
  }

  /** "No files found." is rendered iff there are no files to list. */
  predicate ShowsNoFiles(s: DashboardState) {
    |s.files| == 0
  }

  /** Each of the three failure kinds sets its own fixed message. */
  lemma FailureMessages(s: DashboardState, status: SuccessStatus, folders: Option<seq<string>>, files: Option<seq<string>>)
    ensures status == 200 && (folders.None? || files.None?) ==>
      ApplyReply(s, Replied(status, folders, files)).errorMessage == MsgNoContents
    ensures status != 200 ==>
      ApplyReply(s, Replied(status, folders, files)).errorMessage == MsgFetchFailed
    ensures ApplyReply(s, Threw).errorMessage == MsgFetchError
  {
  }

  /** What the view renders after a reply: the error line iff the reply was
      not a listing, and each placeholder iff its list is empty, the list
      being the reply's for a listing and the previous one otherwise. */
  lemma RenderAfterReply(s: DashboardState, o: ListOutcome)
    ensures var r := ApplyReply(s, o);
      && (ShowsError(r) <==> !IsListing(o))
      && (ShowsNoFolders(r) <==> (if IsListing(o) then o.folders.value == [] else s.folders == []))
      && (ShowsNoFiles(r) <==> (if IsListing(o) then o.files.value == [] else s.files == []))
  {
  }

  /** Empty arrays are present: a 200 reply with two empty arrays is a
      listing, empties the view and shows both placeholders without error. */
  lemma EmptyArraysArePresent(s: DashboardState)
    ensures IsListing(Replied(200, Some([]), Some([])))
    ensures var r := ApplyReply(s, Replied(200, Some([]), Some([])));
      ShowsNoFolders(r) && ShowsNoFiles(r) && !ShowsError(r)
  {
  }

  /** A failed reply leaves the previous listing on screen under the error. */
  lemma FailureKeepsListing(s: DashboardState, o: ListOutcome)
    requires !IsListing(o)
    ensures var r := ApplyReply(s, o);
      ShowsError(r) && r.folders == s.folders && r.files == s.files
      && (ShowsNoFolders(r) <==> ShowsNoFolders(s))
      && (ShowsNoFiles(r) <==> ShowsNoFiles(s))
  {
  }

  /** The message left by a reply says which kind of outcome it was. */
  lemma MessageIdentifiesOutcome(o1: ListOutcome, o2: ListOutcome)
    requires ReplyMessage(o1) == ReplyMessage(o2)
    ensures IsListing(o1) <==> IsListing(o2)
    ensures o1.Threw? <==> o2.Threw?
    ensures o1.Replied? && o2.Replied? ==> (o1.status == 200 <==> o2.status == 200)
  {
  }

  /** The reducer never consults the path: applying a reply at any other
      path gives the same result, moved to that path. Hence a late reply for
      a folder the user has already left is applied all the same. */
  lemma ReplyIgnoresPath(s: DashboardState, o: ListOutcome, path: string)
    ensures ApplyReply(s.(currentPath := path), o) == ApplyReply(s, o).(currentPath := path)
  {
  }

  /** Applying the same reply twice is the same as applying it once. */
  lemma ReplyIdempotent(s: DashboardState, o: ListOutcome)
    ensures ApplyReply(ApplyReply(s, o), o) == ApplyReply(s, o)
  {
  }

  /** One user- or network-driven event of the view: a click on a folder
      item, or the reply to the fetch that was issued for `path`. The view
      does not see which fetch a reply answers; `path` is kept only so that
      traces can say which reply is stale. */
  datatype Event = Click(name: string) | Reply(path: string, outcome: ListOutcome)

  function Step(s: DashboardState, e: Event): DashboardState {
    match e
    case Click(name) => FolderClick(s, name)
    case Reply(_, o) => ApplyReply(s, o)
  }

  /** A stale reply, one for a path the view has left, is applied exactly as
      a current one would be. */
  lemma StaleReplyApplied(s: DashboardState, path: string, o: ListOutcome)
    requires path != s.currentPath
    ensures Step(s, Reply(path, o)) == ApplyReply(s, o)
    ensures Step(s, Reply(path, o)) == Step(s, Reply(s.currentPath, o))
  {
  }

  /** State after the events in order, replies arriving wherever they land. */
  function Run(s: DashboardState, events: seq<Event>): DashboardState
    decreases |events|
  {
    if events == [] then s else Step(Run(s, events[..|events| - 1]), events[|events| - 1])
  }

  /** The folder names clicked, in order. */
  function Clicks(events: seq<Event>): seq<string>
    decreases |events|
  {
    if events == [] then []
    else
      var front := Clicks(events[..|events| - 1]);
      match events[|events| - 1]
      case Click(name) => front + [name]
      case Reply(_, _) => front
  }

  /** The most recent listing among the replies, if any. */
  function LastListing(events: seq<Event>): (r: Option<ListOutcome>)
    ensures r.Some? ==> IsListing(r.value)
    ensures r.Some? ==> exists i :: 0 <= i < |events| && events[i].Reply? && events[i].outcome == r.value
    decreases |events|
  {
    if events == [] then None
    else
      var e := events[|events| - 1];
      if e.Reply? && IsListing(e.outcome) then Some(e.outcome)
      else
        var front := events[..|events| - 1];
        var r := LastListing(front);
        assert r.Some? ==> exists i :: 0 <= i < |events| && events[i].Reply? && events[i].outcome == r.value by {
          if r.Some? {
            var i :| 0 <= i < |front| && front[i].Reply? && front[i].outcome == r.value;
            assert events[i] == front[i];
          }
        }
        r
  }

  /** Replies never move the view: the path after any interleaving of clicks
      and replies is the path reached by the clicks alone. */
  lemma {:induction false} RunPath(s: DashboardState, events: seq<Event>)
    ensures Run(s, events).currentPath == FolderPath.Navigate(s.currentPath, Clicks(events))
    decreases |events|
  {
    if events != [] {
      var front := events[..|events| - 1];
      RunPath(s, front);
      match events[|events| - 1]
      case Click(name) =>
        var cs := Clicks(front) + [name];
        assert cs[..|cs| - 1] == Clicks(front);
      case Reply(_, _) =>
    }
  }

  /** Last reply wins: the arrays on screen are those of the latest listing
      reply, whatever path it was requested for, or the starting arrays when
      no listing has arrived. */
  lemma {:induction false} RunListing(s: DashboardState, events: seq<Event>)
    ensures var r := Run(s, events);
      match LastListing(events)
      case Some(o) => r.folders == o.folders.value && r.files == o.files.value
      case None => r.folders == s.folders && r.files == s.files
    decreases |events|
  {
    if events != [] {
      RunListing(s, events[..|events| - 1]);
    }
  }

  /** The error on screen is decided by the latest reply alone; clicks keep it. */
  lemma {:induction false} RunError(s: DashboardState, events: seq<Event>, k: nat)
    requires k < |events| && events[k].Reply?
    requires forall j :: k < j < |events| ==> events[j].Click?
    ensures Run(s, events).errorMessage == ReplyMessage(events[k].outcome)
    decreases |events|
  {
    if k < |events| - 1 {
      var front := events[..|events| - 1];
      assert forall j :: k < j < |front| ==> front[j] == events[j];
      RunError(s, front, k);
    } else {
      var r := ApplyReply(Run(s, events[..|events| - 1]), events[k].outcome);
      assert r.errorMessage == ReplyMessage(events[k].outcome);
    }
  }

  /** The fetches issued and not yet answered, by path, in a session whose
      token is present throughout: the fetch of the starting path on mount,
      plus the fetch each click's `ClickEffect` issues (one for every click
      that changes the path), minus one for every reply. */
  function Pending(s: DashboardState, events: seq<Event>): multiset<string>
    decreases |events|
  {
    if events == [] then multiset{s.currentPath}
    else
      var front := events[..|events| - 1];
      var before := Pending(s, front);
      var at := Run(s, front);
      match events[|events| - 1]
      case Click(name) =>
        var effect := ClickEffect(at, name, Some("token"));
        if effect.Some? && effect.value.Fetch? then before + multiset{effect.value.path} else before
      case Reply(path, _) => before - multiset{path}
  }

  /** A trace the user and the network can produce: every click is on a
      folder item the view is rendering at that moment, i.e. on a name in the
      listed folders, and every reply answers a fetch that is still pending. */
  predicate Feasible(s: DashboardState, events: seq<Event>)
    decreases |events|
  {
    events == []
    || (var front := events[..|events| - 1];
        var e := events[|events| - 1];
        && Feasible(s, front)
        && (e.Click? ==> e.name in Run(s, front).folders)
        && (e.Reply? ==> e.path in Pending(s, front)))
  }

  /** One more event is one more step. */
  lemma RunSnoc(s: DashboardState, events: seq<Event>, e: Event)
    ensures Run(s, events + [e]) == Step(Run(s, events), e)
  {
  }

  /** The opening of both races below: the root listing shows folders "A"
      and "B"; the user opens "A", which fetches "A", and before that reply
      lands opens "B", still listed from the root, which fetches "A/B". */
  lemma RaceOpening(root: Event)
    requires root == Reply("", Replied(200, Some(["A", "B"]), Some([])))
    ensures var events := [root, Click("A"), Click("B")];
      var r := Run(Initial(), events);
      && Feasible(Initial(), events)
      && Pending(Initial(), events) == multiset{"A", "A/B"}
      && r.currentPath == "A/B" && r.folders == ["A", "B"] && r.files == [] && !ShowsError(r)
  {
    var e1 := [root];
    var e2 := e1 + [Click("A")];
    var e3 := e2 + [Click("B")];
    assert e1 == [] + [root];
    RunSnoc(Initial(), [], root);
    RunSnoc(Initial(), e1, Click("A"));
    RunSnoc(Initial(), e2, Click("B"));
    assert e3[..|e3| - 1] == e2 && e2[..|e2| - 1] == e1 && e1[..0] == [];
    assert Pending(Initial(), e1) == multiset{};
    assert Feasible(Initial(), e1);
    assert Run(Initial(), e1).folders == ["A", "B"];
    assert Pending(Initial(), e2) == multiset{"A"};
    assert Feasible(Initial(), e2);
    assert Run(Initial(), e2).folders == ["A", "B"];
    assert Run(Initial(), e2).currentPath == "A";
    assert FolderPath.ChildPath("A", "B") == "A/B";
    assert Pending(Initial(), e3) == multiset{"A", "A/B"};
    assert e3 == [root, Click("A"), Click("B")];
  }

  /** The race the view does not guard against. After the opening, the
      reply for "A" lands and is shown as the contents of "A/B", while the
      fetch of "A/B" is still pending. */
  lemma ParentListingShownInChild()
    ensures var root := Reply("", Replied(200, Some(["A", "B"]), Some([])));
      var late := Reply("A", Replied(200, Some(["x"]), Some(["a.txt"])));
      var events := [root, Click("A"), Click("B"), late];
      var r := Run(Initial(), events);
      && Feasible(Initial(), events)
      && late.path != r.currentPath
      && Pending(Initial(), events) == multiset{"A/B"}
      && r.currentPath == "A/B" && r.folders == ["x"] && r.files == ["a.txt"] && !ShowsError(r)
  {
    var root := Reply("", Replied(200, Some(["A", "B"]), Some([])));
    var late := Reply("A", Replied(200, Some(["x"]), Some(["a.txt"])));
    var e3 := [root, Click("A"), Click("B")];
    var e4 := e3 + [late];
    RaceOpening(root);
    RunSnoc(Initial(), e3, late);
    assert e4[..|e4| - 1] == e3;
    assert Feasible(Initial(), e4);
    assert e4 == [root, Click("A"), Click("B"), late];
  }

  /** The same race with nothing left in flight. After the opening, the
      reply for "A/B" lands first and the reply for "A" after it. Every fetch
      issued (the root on mount, "A", "A/B") has been answered, yet the view
      stays at "A/B" showing the contents of "A". */
  lemma ParentListingOutlivesChildReply()
    ensures var root := Reply("", Replied(200, Some(["A", "B"]), Some([])));
      var child := Reply("A/B", Replied(200, Some(["y"]), Some([])));
      var late := Reply("A", Replied(200, Some(["x"]), Some(["a.txt"])));
      var events := [root, Click("A"), Click("B"), child, late];
      var r := Run(Initial(), events);
      && Feasible(Initial(), events)
      && late.path != r.currentPath && child.path == r.currentPath
      && Pending(Initial(), events) == multiset{}
      && r.currentPath == "A/B" && r.folders == ["x"] && r.files == ["a.txt"] && !ShowsError(r)
  {
    var root := Reply("", Replied(200, Some(["A", "B"]), Some([])));
    var child := Reply("A/B", Replied(200, Some(["y"]), Some([])));
    var late := Reply("A", Replied(200, Some(["x"]), Some(["a.txt"])));
    var e3 := [root, Click("A"), Click("B")];
    var e4 := e3 + [child];
    var e5 := e4 + [late];
    RaceOpening(root);
    RunSnoc(Initial(), e3, child);
    RunSnoc(Initial(), e4, late);
    assert e5[..|e5| - 1] == e4 && e4[..|e4| - 1] == e3;
    assert Pending(Initial(), e4) == multiset{"A"};
    assert Feasible(Initial(), e4);
    assert Feasible(Initial(), e5);
    assert e5 == [root, Click("A"), Click("B"), child, late];
  }
}
