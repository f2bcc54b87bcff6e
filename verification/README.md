# NebulaCloud front end: dashboard and login state machines

This project models, in Dafny, the two views of the NebulaCloud browser
client that hold behaviour rather than markup.

- The **dashboard** (`Dashboard` in `src/views/dashboard.js`) lists the
  folders and files of the current remote folder. Its state is the two
  listed arrays, an error line and the current path. The path is a single
  string. At the root `''`, clicking a folder makes the path its name;
  anywhere else the click appends `'/'` and the name. On
  mount and on each path change, an effect reads the stored access token. With no token it
  redirects to `/login`; otherwise it fetches a listing of the current path.
  The reply is folded into the state by `fetchContents`.
- The **login form** (`Login` in `src/views/login.js`) holds username,
  password, an error line and a loading flag. Its submit handler turns
  loading on and clears the error, then picks an error from the request's
  outcome, and finally always turns loading off. The submit button is
  disabled while loading, and its caption shows the same flag.

Every HTTP request is replaced by an outcome datatype (`ListOutcome`,
`LoginOutcome`). JavaScript truthiness is modelled in `JsValues`. A missing
value is `None`. A string counts as present only when it is non-empty, but
any array counts as present, even an empty one. The stored token is an
`Option<string>` input. The redirect is an output value (`Effect`).

Both requests reject every status outside 2xx. So a reply outcome
(`Replied`, `Responded`) only ever carries a 2xx status, and its type
(`JsValues.SuccessStatus`, 200 to 299) says so. A non-2xx reply is
a thrown error: `Dashboard.Threw`, or `Login.Failed` with the body's
`message`. A reply body that the handler cannot inspect also ends in the
`catch`:
- A login reply with status 200 and a body that is not an object (an empty
  body, `null`, a bare string) makes `'state' in response.data` throw. The
  thrown error has no response, so the fallback message shows
  (`Login.NonObjectBodyFails`).
- A listing reply with a `null` body throws when `folders` is read, and is
  `Dashboard.Threw`.

Files:

- `jsvalues.dfy`: module `JsValues`. It defines `Option`, truthiness, and `a || b` on strings.
- `folderpath.dfy`: module `FolderPath`. It holds the folder-click join, a run of clicks, and an
  independent segment reading (`Join`/`Split`) with round trips in both directions.
- `dashboard.dfy`: module `Dashboard`. It holds the state, the click, the path effect, the reply
  reducer, the render predicates and an event-trace model.
- `login.dfy`: module `Login`. It holds the state, the input setters, begin/finish/submit, and
  the button.

The dashboard does not check whether a reply is stale. `fetchContents`
applies a reply whatever the current path has become by the time it
arrives. The model follows the code:

- `Dashboard.ReplyIgnoresPath` proves that the reducer never reads the path.
- `Dashboard.RunListing` proves that the listed arrays are those of the latest successful reply, whichever path it was requested for.
- Each reply in a trace is labelled with the path its fetch was issued for. `Dashboard.Step` ignores the label, as the handler does, and `Dashboard.Pending` counts the fetches still unanswered: the mount fetch, plus the fetch each click's effect issues, minus one per reply. A feasible trace (`Dashboard.Feasible`) only clicks rendered folder items and only delivers replies to pending fetches.
- `Dashboard.StaleReplyApplied` proves that a reply labelled with a path other than the current one is applied exactly as a reply for the current path would be.
- `Dashboard.ParentListingShownInChild` exhibits the race on a feasible trace. The root lists `A` and `B`. The user opens `A`, which fetches `A`. While that fetch is pending, `B` is still on screen from the root listing, and the user opens it, which fetches `A/B`. The reply labelled `A` then arrives and is shown as the contents of `A/B`, while the fetch of `A/B` is still pending.
- `Dashboard.ParentListingOutlivesChildReply` makes the race permanent. The reply labelled `A/B` lands before the reply labelled `A`. Nothing is pending afterwards, and the view still shows the contents of `A` at `A/B`.

So a reply for a path the user has already left is shown under the new
path, and the previous folder's items stay clickable while a fetch is
pending. The path is a plain joined string and not a list of
segments. `FolderPath.ClicksRecoverable` shows that the clicked names can be
read back from the path when none contains `/` and the first name is
non-empty. The second condition is needed because clicking `''` at the root
leaves the path at `''`. `FolderPath.SeparatorInNameCollides` shows that a
folder named `a/b` and the nested folders `a`, `b` reach the same path, which
reads back as `a`, `b`.

What the views render is stated by predicates on their state:
- `Dashboard.ShowsError`: the error paragraph (dashboard.js line 63) shows iff the error is non-empty.
- `Dashboard.ShowsNoFolders`: "No folders found." (line 72) shows iff the folder list is empty.
- `Dashboard.ShowsNoFiles`: "No files found." (line 92) shows iff the file list is empty.
- `Login.ShowsError`: the error paragraph (login.js line 71) shows iff the error is non-empty.
- `Login.ButtonDisabled`: the submit button (line 75) is disabled iff loading.
- `Login.ButtonLabel`: the caption (line 77) follows the loading flag.

The lemmas in the table below state these predicates for each transition.

## Model

| member | source | states |
|---|---|---|
| `JsValues.OrElse` | src/views/login.js:39 | JavaScript `or` of a possibly-absent string and a fallback: the value when present and non-empty, else the fallback; never empty when the fallback is not |
| `FolderPath.ChildPath` | src/views/dashboard.js:55 | at the root the new path is the name itself; elsewhere it is the old path, one `/`, then the name: old path is a prefix, name is the suffix, its length is the two lengths plus one |
| `FolderPath.NavigateFromFolder` | src/views/dashboard.js:55-57 | a run of clicks from a non-root folder equals the segment join of the start path followed by every clicked name |
| `FolderPath.NavigateFromRoot` | src/views/dashboard.js:55-57 | a run of clicks from the root whose first name is non-empty equals the segment join of the names |
| `FolderPath.SplitJoin` | src/views/dashboard.js:55 | cutting a joined path at `/` gives back the segments, when no segment contains `/` |
| `FolderPath.JoinSplit` | src/views/dashboard.js:55 | joining the pieces of any path string restores the string |
| `FolderPath.SplitPlainSegments` | src/views/dashboard.js:55 | every piece obtained by cutting a path at `/` is free of `/` |
| `FolderPath.ClicksRecoverable` | src/views/dashboard.js:55-57 | the path reached from the root by clicking plain names (first non-empty) reads back as exactly the clicked names |
| `FolderPath.ThreeClicks` | src/views/dashboard.js:55-57 | clicking `a`, `b`, `c` from the root reaches `a/b/c` |
| `FolderPath.SeparatorInNameCollides` | src/views/dashboard.js:55 | a folder named `a/b` and folders `a` then `b` reach the same path, which reads back as the two segments `a`, `b` |
| `Dashboard.Initial` | src/views/dashboard.js:6-9 | mounts with no folders, no files, empty error, root path; so no error line and both "No … found." placeholders are shown |
| `Dashboard.FolderClick` | src/views/dashboard.js:54-58 | a click sets the path to the child path and leaves folders, files and error untouched |
| `Dashboard.PathEffect` | src/views/dashboard.js:13-21 | redirects iff the token is absent or empty, and then to `/login`; otherwise fetches exactly the current path with that token |
| `Dashboard.ClickEffect` | src/views/dashboard.js:21 | the effect reruns after a click iff the path changed, which fails exactly for the empty name at the root; when it reruns it is the path effect of the new path |
| `Dashboard.ReplyMessage` | src/views/dashboard.js:35-51 | the error a reply leaves is empty iff the reply is status 200 with both arrays present, and is otherwise one of the three fixed messages |
| `Dashboard.ApplyReply` | src/views/dashboard.js:35-51 | a listing replaces both arrays with the reply's and clears the error; any other outcome keeps both arrays and sets a non-empty error; the path is unchanged |
| `Dashboard.FailureMessages` | src/views/dashboard.js:42-51 | 200 with an array missing gives "No folders or files found in this folder.", another 2xx status "Failed to fetch contents. Please try again later.", a thrown error "Error occurred while fetching contents." |
| `Dashboard.EmptyArraysArePresent` | src/views/dashboard.js:38-41 | a 200 reply with two empty arrays is a listing: it empties both lists, shows both placeholders and no error |
| `Dashboard.FailureKeepsListing` | src/views/dashboard.js:42-51 | after a failed reply the error is shown above the previous, unchanged listing and placeholders |
| `Dashboard.MessageIdentifiesOutcome` | src/views/dashboard.js:38-50 | two outcomes leaving the same message are of the same kind: listing, thrown, or status 200 versus not |
| `Dashboard.ReplyIgnoresPath` | src/views/dashboard.js:23-52 | the reducer does not consult the path: applying a reply at any path gives the same state at that path |
| `Dashboard.ReplyIdempotent` | src/views/dashboard.js:35-51 | applying the same reply twice equals applying it once |
| `Dashboard.RunPath` | src/views/dashboard.js:35-57 | after any interleaving of clicks and replies, the path is the one the clicks alone reach |
| `Dashboard.RunListing` | src/views/dashboard.js:38-41 | after any interleaving, the listed arrays are those of the latest listing reply, whatever path it was for, or the initial arrays if none arrived |
| `Dashboard.RunError` | src/views/dashboard.js:38-51 | the error on screen is the message of the latest reply, clicks after it leave it in place |
| `Dashboard.RenderAfterReply` | src/views/dashboard.js:63-100 | after a reply the error line shows iff it was not a listing, and each "No … found." placeholder shows iff its list (the reply's for a listing, the previous one otherwise) is empty |
| `Dashboard.StaleReplyApplied` | src/views/dashboard.js:23-52 | a reply for a path other than the current one is applied exactly as a reply for the current path: the handler has no staleness check |
| `Dashboard.ParentListingShownInChild` | src/views/dashboard.js:13-85 | on a feasible trace (clicks on rendered items, replies only to pending fetches) the root lists `A` and `B`; opening `A` fetches `A`; opening `B` before that reply lands fetches `A/B`; the reply for `A` then lands at `A/B`, where it is shown with no error while `A/B` is still the one fetch pending |
| `Dashboard.ParentListingOutlivesChildReply` | src/views/dashboard.js:13-85 | on a feasible trace the root lists `A` and `B`; opening `A` fetches `A` and opening `B` fetches `A/B`; the reply for `A/B` lands first and the reply for `A` last, so with no fetch pending the view stays at `A/B` showing the arrays of the reply for `A` with no error |
| `Login.Initial` | src/views/login.js:6-9 | mounts with empty username, password and error and not loading; the button is enabled and reads "Login" |
| `Login.SetUsername` | src/views/login.js:56 | editing the username replaces it and nothing else |
| `Login.SetPassword` | src/views/login.js:67 | editing the password replaces it and nothing else |
| `Login.Begin` | src/views/login.js:12-14 | a submission starts with loading on and the error empty, whatever it was, fields unchanged |
| `Login.OutcomeMessage` | src/views/login.js:22-39 | the error an outcome leaves is empty iff status 200 with an object body; another 2xx status gives "Invalid username or password."; status 200 with a body that is not an object gives "Something went wrong."; a thrown error gives the server message when present and non-empty, else "Something went wrong." |
| `Login.Finish` | src/views/login.js:22-42 | after any outcome loading is off; status 200 with an object body leaves the error as it stood; every other outcome sets its non-empty message; fields unchanged |
| `Login.Submit` | src/views/login.js:11-43 | a whole submission ends with loading off, fields unchanged and the outcome's message as the error |
| `Login.ButtonLabel` | src/views/login.js:77 | the caption is "Logging in..." iff loading and "Login" iff not |
| `Login.BeginShowsProgress` | src/views/login.js:71-77 | while a submission is pending the button is disabled, reads "Logging in..." and no error shows |
| `Login.FinishReleasesButton` | src/views/login.js:40-42 | after any outcome the button is enabled and reads "Login" |
| `Login.ErrorShownIffNotAccepted` | src/views/login.js:22-39 | after a submission an error shows iff the reply was not status 200 with an object body |
| `Login.SuccessStoresNothing` | src/views/login.js:22-33 | status 200 with an object body only clears the error and loading; the body's state and token are never stored, so which fields the object holds does not matter |
| `Login.NonObjectBodyFails` | src/views/login.js:25-39 | status 200 with a body that is not an object ends exactly like an error without a response: "Something went wrong." |
| `Login.SubmitForgetsPrevious` | src/views/login.js:12-14 | a submission's result does not depend on the previous error or loading flag |
| `Login.FailureMessages` | src/views/login.js:34-39 | concrete failures: 2xx statuses 204 and 201 give "Invalid username or password."; a rejected reply with a server message shows it; an empty or missing message gives "Something went wrong." |

## Left out

- HTTP requests (axios calls, URLs, headers, query parameters, request bodies). Each request is an outcome datatype. The model does not compute the rule that non-2xx statuses are thrown. It is the convention for building outcomes described above, and the `SuccessStatus` type of reply statuses enforces it.
- React scheduling: `useState` batching, re-render timing and async interleaving. Transitions are sequential functions, and a trace of events (`Dashboard.Run`) stands in for the order in which clicks and replies land.
- `Dashboard.Pending`: counts fetches only for a session whose token stays present throughout. A trace in which the token disappears and the view redirects is not modelled.
- `localStorage` and `useNavigate`. The token is an `Option<string>` input and the redirect is an `Effect` value.
- `console.log` and `console.error`. They only log.
- The JSX markup and CSS. Only the render predicates are kept: the error line, the two "No … found." placeholders, and the button's disabled state and caption. The folder items are the `folders` array in order.
- The form's `required` attributes. They are browser constraint validation with no handler code, so submission with empty fields is not excluded.
- The route table and its own token check in `src/app.js`. That check is the same presence test as `Dashboard.PathEffect`.
- `Login.OutcomeMessage`: a server `message` that is truthy but not a string (a number, an object) is not modelled. It is taken to be a string or absent.
- Back navigation, uploads, folder creation, deletion, downloads, previews, context menus and zoom/pan. These views have no code for any of them.
