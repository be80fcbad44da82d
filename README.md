# SafeQuest core, modelled in Dafny

SafeQuest is a children's safety-learning web app: an Express/Mongoose server with account and
blog routes, and a React front end with sign-up and login forms, a blog page and a page shell.
This project models the logic underneath the views:

- `blog_routes.dfy` (`BlogRoutes`): the blog server. It covers the `requireAuth` middleware and the
  listing sorted newest first. It covers post creation, the like toggle (`indexOf`, then `splice`
  or `push`) and the comment append. The posts collection is the class `BlogStore` with a
  `map<PostId, Post>` field.
- `auth_routes.dfy` (`AuthRoutes`): the account server. It covers sign-up, sign-in, the settings
  update and the avatar and profile-picture updates. The users collection is the class `UserStore`.
- `blog_page.dfy` (`BlogPage`): the client blog page. It covers the mapping done by `fetchBlogs`,
  the optimistic like and comment updates with their reverts, the comments toggle and posting.
- `form_rules.dfy` (`FormRules`): the field rules shared by the two forms. These are the unanchored
  email pattern `\S+@\S+\.\S+`, the required-field checks, the minimum password length and the messages.
- `signup_page.dfy` (`SignupPage`), `login_page.dfy` (`LoginPage`): `validate` and the guard and
  error paths of `handleSignup` and `handleLogin`.
- `app_shell.dfy` (`Navigation`, `App`): the page shell of both `App.jsx` versions. It holds the
  state `(currentPage, user)`, `handleNavigate` and the two `renderPage` switches.
- `common.dfy`: `Option`, JavaScript truthiness and `||`, white space and `String.prototype.trim`
  (the white space of ECMA-262, sections 12.2 and 12.3), and object ids.

Database round trips, `fetch` and `axios` calls are outcome parameters. Every lookup, query, save
and `populate` a route awaits is a `Persistence.Storage`; a client response is `Ok | NotOk | Thrown`; a refetch is the list it
returned, or nothing when it failed. Fresh object ids and creation times are parameters.
`comparePassword` is a function parameter.

A React handler reads the state of the render that created it, and its setters replace that
state. Each client handler is therefore a method. It takes that snapshot and the outcomes of its
awaited calls, and returns the state its setters leave behind. This is what the reverts and the
error paths depend on.

## Model

| member | source | states |
|---|---|---|
| Wrappers.OrElse | frontend/src/pages/Blog.jsx:51 | `v \|\| fallback` on an optional string: the value when it is truthy, otherwise the fallback |
| Text.Trim | backend/routes/auth.js:87-88 | the result is a contiguous slice of the input; only white space is cut from either side; the result starts and ends with a non-space character |
| Text.TrimBlank | backend/routes/auth.js:87 | a string trims to the empty string exactly when it is all white space |
| Text.TrimIdempotent | backend/routes/auth.js:88 | trimming a trimmed string changes nothing |
| ObjectIds.Cast | toycathon-489417ec6ceb59073f7e5474b596a824a8de1972/backend/routes/blog.js:16 | a 24-hex-digit string casts to the id with the same digits, in lower case |
| ObjectIds.CastCanonical | toycathon-489417ec6ceb59073f7e5474b596a824a8de1972/backend/routes/blog.js:16 | casting an id that is already in canonical form returns it unchanged |
| BlogRoutes.RequireAuth | toycathon-489417ec6ceb59073f7e5474b596a824a8de1972/backend/routes/blog.js:8-22 | 401 exactly when neither the body `userId` nor the `userid` header is truthy; otherwise the body field is chosen when truthy, else the header; a chosen value that is not a well-formed id gives 400; otherwise the acting id is its cast |
| BlogRoutes.BodyFieldShadowsHeader | toycathon-489417ec6ceb59073f7e5474b596a824a8de1972/backend/routes/blog.js:16 | a malformed body id gives 400 even when the header holds a well-formed one |
| BlogRoutes.IndexOf | toycathon-489417ec6ceb59073f7e5474b596a824a8de1972/backend/routes/blog.js:61 | `indexOf`: -1 exactly when the element is absent; otherwise a position holding it with no earlier occurrence |
| BlogRoutes.Toggled | toycathon-489417ec6ceb59073f7e5474b596a824a8de1972/backend/routes/blog.js:61-66 | the like toggle: the first occurrence of the actor removed when present, the actor appended otherwise (its properties are the lemmas below) |
| BlogRoutes.SpliceOrPush | toycathon-489417ec6ceb59073f7e5474b596a824a8de1972/backend/routes/blog.js:61-66 | the route's `indexOf` then `splice` or `push` computes exactly the toggle `Toggled` |
| BlogRoutes.SpliceRemovesFirst | toycathon-489417ec6ceb59073f7e5474b596a824a8de1972/backend/routes/blog.js:61-63 | splicing out the element at `indexOf` equals removing its first occurrence |
| BlogRoutes.RemoveFirstMultiset | toycathon-489417ec6ceb59073f7e5474b596a824a8de1972/backend/routes/blog.js:63 | removing the first occurrence takes exactly one copy out of the multiset (none when absent) |
| BlogRoutes.NoDuplicatesMultiset | toycathon-489417ec6ceb59073f7e5474b596a824a8de1972/backend/routes/blog.js:61-66 | a list has no duplicates exactly when every multiplicity is at most one |
| BlogRoutes.ToggleKeepsUnique | toycathon-489417ec6ceb59073f7e5474b596a824a8de1972/backend/routes/blog.js:61-66 | the toggle keeps a duplicate-free likes list duplicate-free; it flips the actor's membership and leaves every other user's membership alone |
| BlogRoutes.ToggleTwice | toycathon-489417ec6ceb59073f7e5474b596a824a8de1972/backend/routes/blog.js:61-66 | toggling twice restores the list when the actor was absent; when the actor occurred once (multiplicity one), the actor ends up at the end of the list, and the multiset is restored |
| BlogRoutes.ToggleParity | toycathon-489417ec6ceb59073f7e5474b596a824a8de1972/backend/routes/blog.js:61-66 | after n toggles on a duplicate-free list, the list is still duplicate-free; the actor is a member exactly when its initial membership flipped an odd number of times; others are unaffected |
| BlogRoutes.InsertByRecency | toycathon-489417ec6ceb59073f7e5474b596a824a8de1972/backend/routes/blog.js:27 | inserting one entry adds exactly that entry to the multiset, at the front or behind the first entry |
| BlogRoutes.InsertKeepsOrder | toycathon-489417ec6ceb59073f7e5474b596a824a8de1972/backend/routes/blog.js:27 | insertion keeps a listing ordered by `createdAt` descending |
| BlogRoutes.InsertOccurrences | toycathon-489417ec6ceb59073f7e5474b596a824a8de1972/backend/routes/blog.js:27 | insertion adds one occurrence of the inserted id and none of any other |
| BlogRoutes.ReplaceKeepsUnique | toycathon-489417ec6ceb59073f7e5474b596a824a8de1972/backend/routes/blog.js:67 | saving a post whose likes are duplicate-free keeps every post's likes duplicate-free |
| BlogRoutes.BlogStore.List | toycathon-489417ec6ceb59073f7e5474b596a824a8de1972/backend/routes/blog.js:25-32 | a failed query is a 500 with its message; otherwise 200 with every stored post exactly once, under its own id, ordered by `createdAt` descending |
| BlogRoutes.BlogStore.Create | toycathon-489417ec6ceb59073f7e5474b596a824a8de1972/backend/routes/blog.js:35-51 | the authentication failure is returned unchanged; a failed save is a 400 with its message and stores nothing; otherwise the new post is stored with the request's title and content, the acting user as author and no likes or comments, and the reply is 201, or a 400 with its message when the `populate` after the save fails |
| BlogRoutes.BlogStore.Like | toycathon-489417ec6ceb59073f7e5474b596a824a8de1972/backend/routes/blog.js:54-73 | a malformed id is a 500; a failed lookup or a failed save is a 500 carrying that error's message; an unknown id is a 404; none of them change anything; once the save succeeds, only that post changes, its likes become the toggle of the acting user, and duplicate-free likes stay so; the reply is 200 with the post, or a 500 with its message when the `populate` after the save fails |
| BlogRoutes.BlogStore.AddComment | toycathon-489417ec6ceb59073f7e5474b596a824a8de1972/backend/routes/blog.js:76-93 | the same error ladder as Like, the failed lookup and the failed save included; once the save succeeds, the post's comments grow by exactly one; the earlier comments are unchanged; the last is the acting user's with the request's text; the reply is 200 with the post, or a 500 when the `populate` after the save fails |
| AuthRoutes.ProfileOf | backend/routes/auth.js:60-68 | the reply carries the account's id, email, username and role (never the password) |
| AuthRoutes.ApplySettings | backend/routes/auth.js:84-89 | privacy is overwritten only when supplied; an absent username keeps the old one; every other field is kept |
| AuthRoutes.UsernameRule | backend/routes/auth.js:87-88 | a blank username keeps the stored one; a non-blank one is stored trimmed and is non-empty |
| AuthRoutes.SettingsIdempotent | backend/routes/auth.js:84-89 | applying the same settings twice equals applying them once |
| AuthRoutes.SameEmailKeepsUnique | backend/routes/auth.js:91 | changing an account without touching its email keeps emails unique |
| AuthRoutes.UserStore.EmailTaken | backend/routes/auth.js:12-13 | `findOne({ email })` finds an account: some stored account has that email (the same lookup as line 48) |
| AuthRoutes.UserStore.FindById | backend/routes/auth.js:79 | `findById`: found exactly for a well-formed stored id; a cast error exactly for a malformed one; nothing for a missing id |
| AuthRoutes.UserStore.SignUp | backend/routes/auth.js:7-41 | a failed lookup or a failed save is a 400 with its message; a taken email is a 400 'User already exists'; none of them creates anybody; otherwise exactly one account is added, the role defaults to 'student', and the reply is 201 with `isNewUser` true |
| AuthRoutes.UserStore.SignIn | backend/routes/auth.js:44-72 | a failed lookup is a 500 'Server error'; otherwise 200 exactly when some account has that email and `comparePassword` accepts it, carrying that account's profile; every other failure is the same 400 'Invalid email or password' |
| AuthRoutes.UserStore.Update | backend/routes/auth.js:75-106 | a malformed id, a failed lookup or a failed save is a 500 'Server error', an unknown id a 404 'User not found', and none change anything; otherwise exactly that account becomes `ApplySettings` of it |
| AuthRoutes.UserStore.UpdateAvatar | backend/routes/auth.js:108-127 | the same error ladder; otherwise only the avatar of that account is set, to the body's value, and echoed |
| AuthRoutes.UserStore.UpdateProfilePicture | backend/routes/auth.js:129-148 | the same error ladder; otherwise only the profile picture of that account is set, to the body's value, and echoed |
| BlogPage.Hydrate | frontend/src/pages/Blog.jsx:28 | order and length are kept; each post keeps its document, gets `id` equal to `_id`, comments hidden and an empty comment input |
| BlogPage.Refetch | frontend/src/pages/Blog.jsx:24-32 | a failed fetch keeps the list; a successful one replaces it by the fetched documents, in order, each with `id` equal to `_id`, comments hidden and an empty input |
| BlogPage.LikedBy | frontend/src/pages/Blog.jsx:62 | `some`: some entry of the likes carries the user id |
| BlogPage.WithoutUser | frontend/src/pages/Blog.jsx:64 | the filter drops every entry of the user and keeps every other entry with its multiplicity and in its order; it changes nothing when the user is absent |
| BlogPage.FindIndex | frontend/src/pages/Blog.jsx:61 | `find` as a position: -1 exactly when no post has the id, else the first that does |
| BlogPage.FlipLike | frontend/src/pages/Blog.jsx:64 | only the posts with the id change, and only in their likes; removing makes the likes exactly `WithoutUser` of them (every entry of the user gone, the others kept in order with their multiplicities); adding appends one entry for the user |
| BlogPage.FilterAbsentIsIdentity | frontend/src/pages/Blog.jsx:75 | with unique post ids, filtering out a user who had not liked gives back the list unchanged |
| BlogPage.HandleLike | frontend/src/pages/Blog.jsx:60-82 | a missing post changes nothing; the optimistic update flips the user's membership; on failure the revert is computed from the pre-click list, the user's membership is as before the click, and, with unique post ids, the list is restored when the user had not liked |
| BlogPage.FailedUnlikeDuplicates | frontend/src/pages/Blog.jsx:75 | the revert of a failed unlike holds the user twice |
| BlogPage.HandleLikeRestoring | frontend/src/pages/Blog.jsx:60-82 | the corrected handler: any failure gives back the pre-click list |
| BlogPage.DropLast | frontend/src/pages/Blog.jsx:103 | `slice(0, -1)`: the array without its last element, empty for an empty array |
| BlogPage.AppendComment | frontend/src/pages/Blog.jsx:92 | only the posts with the id change; one comment is appended after the existing ones and the input is cleared |
| BlogPage.RevertComment | frontend/src/pages/Blog.jsx:103 | the posts with the id get the pre-click comments minus their last one and the submitted text back in the input; nothing else changes |
| BlogPage.RestoreComment | frontend/src/pages/Blog.jsx:103 | the corrected revert: every document is unchanged, and only the input of the posts with the id gets the text back |
| BlogPage.RestoreCommentIsSnapshot | frontend/src/pages/Blog.jsx:108 | when the input still held the submitted text, the corrected revert is the pre-click list |
| BlogPage.HandleComment | frontend/src/pages/Blog.jsx:84-110 | text that is blank after trimming changes nothing; otherwise the optimistic append, then the refetch on success or the revert from the pre-click list on failure |
| BlogPage.FailedCommentLosesOne | frontend/src/pages/Blog.jsx:103 | a failed comment on a post that had comments leaves one comment fewer than before the click |
| BlogPage.HandleCommentRestoring | frontend/src/pages/Blog.jsx:84-110 | the corrected handler: a failure leaves every document as it was before the click |
| BlogPage.ToggleComments | frontend/src/pages/Blog.jsx:437 | only `showComments` of the posts with the id flips; everything else is kept |
| BlogPage.ToggleCommentsTwice | frontend/src/pages/Blog.jsx:437 | two clicks give back the list |
| BlogPage.HandlePostBlog | frontend/src/pages/Blog.jsx:34-58 | an empty title or content sends nothing and changes nothing; otherwise the request carries the draft and the user id; success clears the form; a non-ok response shows the server error or 'Failed to post blog'; a throw shows the network message; `loading` ends false |
| FormRules.EmailPatternTest | frontend/src/pages/Signup.jsx:39 | the regular expression test: some slice of the string is non-space characters, '@', non-space characters, '.', non-space characters (the same test as `toycathon-…/frontend/src/pages/Login.jsx` line 38) |
| FormRules.EmailPatternShape | frontend/src/pages/Signup.jsx:39 | the unanchored test matches exactly when there is an '@' with a non-space before it, and a later '.' with one non-space between and one after, all white-space free |
| FormRules.NoAtSignNoMatch | frontend/src/pages/Signup.jsx:39 | without an '@' the test fails |
| FormRules.SurroundedAddressMatches | frontend/src/pages/Signup.jsx:39 | any text before and after a string the test matches leaves it matching |
| FormRules.EmailMessage | frontend/src/pages/Signup.jsx:38-39 | no message exactly for a non-empty email the pattern matches; 'Email is required' for an empty one, else 'Invalid email format' |
| FormRules.PasswordMessage | frontend/src/pages/Signup.jsx:41-42 | no message exactly when the length is at least 6; 'Password is required' when empty, else the length message |
| FormRules.UsernameMessage | frontend/src/pages/Signup.jsx:40 | a message exactly when the username is empty |
| SignupPage.ExpectedEmptyIff | frontend/src/pages/Signup.jsx:44 | no field error exactly when the email is non-empty and matches, the username is non-empty and the password has at least 6 characters |
| SignupPage.Validate | frontend/src/pages/Signup.jsx:36-45 | the error object built field by field holds each field's message, at most one per field; true exactly when it is empty |
| SignupPage.HandleSignup | frontend/src/pages/Signup.jsx:47-56 | an invalid form is not sent and shows its validation errors; success goes to 'login'; failure adds `general` (the server error or 'Signup failed') to the errors of the clicking render |
| SignupPage.StaleErrorWitness | frontend/src/pages/Signup.jsx:53 | a valid email still shows 'Invalid email format' after a failed sign-up when an earlier click left that message |
| SignupPage.HandleSignupFresh | frontend/src/pages/Signup.jsx:47-56 | the corrected handler: field errors always equal the validation of the submitted input |
| LoginPage.ExpectedEmptyIff | toycathon-489417ec6ceb59073f7e5474b596a824a8de1972/frontend/src/pages/Login.jsx:42 | no field error exactly when the email is non-empty and matches and the password has at least 6 characters |
| LoginPage.Validate | toycathon-489417ec6ceb59073f7e5474b596a824a8de1972/frontend/src/pages/Login.jsx:35-43 | the error object holds each field's message; true exactly when it is empty |
| LoginPage.HandleLogin | toycathon-489417ec6ceb59073f7e5474b596a824a8de1972/frontend/src/pages/Login.jsx:45-54 | only a valid form is sent; success navigates to 'welcome' with the response as the user; failure adds the fixed `general` message to the errors of the clicking render |
| LoginPage.StaleErrorWitness | toycathon-489417ec6ceb59073f7e5474b596a824a8de1972/frontend/src/pages/Login.jsx:51 | a long-enough password still shows the length message after a refused login when an earlier click left it |
| LoginPage.HandleLoginFresh | toycathon-489417ec6ceb59073f7e5474b596a824a8de1972/frontend/src/pages/Login.jsx:45-54 | the corrected handler: field errors always equal the validation of the submitted input |
| App.RenderPage | frontend/src/App.jsx:34-50 | 'signup', 'welcome', 'settings', 'blog' and 'adventure' each show their own page, the user pages with the current user; anything else shows Login |
| App.LegacyRenderPage | toycathon-489417ec6ceb59073f7e5474b596a824a8de1972/frontend/src/App.jsx:20-32 | only 'signup', 'welcome' and 'blog' show their own page; every other name, 'settings' and 'adventure' included, shows Login |
| App.RenderPageInjective | frontend/src/App.jsx:35-45 | different known page names show different pages |
| App.LegacyAgrees | toycathon-489417ec6ceb59073f7e5474b596a824a8de1972/frontend/src/App.jsx:20-32 | the two switches agree on every name except 'settings' and 'adventure', which only the newer one shows |
| App.Shell.constructor | frontend/src/App.jsx:12-13 | the first state is page 'login' and no user, which shows Login |
| App.Shell.View | frontend/src/App.jsx:34-50 | the shell shows Login exactly when its page name is unknown to its version of the switch |
| App.Shell.HandleNavigate | frontend/src/App.jsx:27-32 | the page is always the requested one; the user is replaced only when the data carries one, otherwise kept |
| App.NavigateKeepsUser | toycathon-489417ec6ceb59073f7e5474b596a824a8de1972/frontend/src/App.jsx:14-16 | after signing in, any run of navigations without user data keeps the user |

## Left out

- Password hashing and `comparePassword` belong to the user model, which is not part of this model. `SignIn` takes the comparison as a parameter.
- AuthRoutes.UserStore.SignIn: a `comparePassword` that throws ends in the route's catch with 500 'Server error'. The comparison here is a total function, so only a failed lookup reaches that reply.
- Mongoose schema defaults and validators are not part of this model, for example a required `title`. Every save takes its outcome as a parameter.
- What `populate` fills in, and the JSON shape of populated documents on the server, are not modelled; only whether it fails is. The client works with populated `{_id, username}` references as given.
- Each auth route sends its own subset of account fields. `ProfileOf` collapses them into one profile, so `SignUp` and `Update` carry a few fields their replies omit.
- BlogRoutes.RequireAuth: only the 24-hex-digit string form counts as a well-formed id. The driver also accepts 12-character strings and non-string values; here those give 400.
- BlogRoutes.BlogStore.Like: a malformed route id gives a 500 whose body carries the driver's cast message. The model fixes that text and states only the status.
- BlogRoutes.BlogStore.AddComment: the same simplification of the cast message as for `Like`.
- BlogRoutes.BlogStore.List: the sort does not say how posts with equal `createdAt` are ordered, so neither does the model.
- BlogRoutes.BlogStore.AddComment stores blank comment text as the route does (blog.js lines 78-86). Only the client guard in `HandleComment` drops it.
- Concurrency between overlapping requests is not modelled. The `fetchBlogs` refetch is not awaited; it is modelled as replacing the list with what it fetched, or keeping the list when it fails.
- Time stamps (`new Date()`, server `createdAt`) are opaque naturals supplied by the caller.
- JavaScript string lengths count UTF-16 code units. Dafny strings count characters, so a password of astral-plane characters is measured differently.
- `Settings` also replaces the user directly through the `setUser` prop (`frontend/src/App.jsx` line 41). The settings page is not part of this model, so `Shell` changes `user` only through `HandleNavigate`.
- Editing a comment input (`frontend/src/pages/Blog.jsx:486`) is a plain field write and is not modelled.
- Logging, the theme and its `localStorage` persistence, image upload, the chatbot and the animated pages are not modelled.

## Findings

| source | as written | input that shows it | evidently intended | confidence | as-written member | corrected member |
|---|---|---|---|---|---|---|
| frontend/src/pages/Blog.jsx:75 | the revert of a failed like appends the user to the pre-click likes, which still hold the user after an unlike (the same at line 80) | a post the user has liked; the like request answers not ok or throws | the pre-click likes come back unchanged | high, not executed | BlogPage.FailedUnlikeDuplicates | BlogPage.HandleLikeRestoring |
| frontend/src/pages/Blog.jsx:103 | the revert of a failed comment slices the pre-click comments, which never held the optimistic one (the same at line 108) | a post with one comment; the comment request answers not ok or throws | the pre-click comments come back unchanged | high, not executed | BlogPage.FailedCommentLosesOne | BlogPage.HandleCommentRestoring |
| frontend/src/pages/Signup.jsx:53 | `general` is added to the errors of the render that started the click, not to the errors `validate` just set | an earlier click left 'Invalid email format'; now 'kid@safe.quest', 'ada', 'secret1' are submitted and the server refuses | the field errors of the submitted input (none) plus `general` | medium, not executed | SignupPage.StaleErrorWitness | SignupPage.HandleSignupFresh |
| toycathon-489417ec6ceb59073f7e5474b596a824a8de1972/frontend/src/pages/Login.jsx:51 | `general` is added to the errors of the render that started the click, not to the errors `validate` just set | an earlier click left the password length message; now 'kid@safe.quest', 'secret1' are submitted and the server refuses | the field errors of the submitted input (none) plus `general` | medium, not executed | LoginPage.StaleErrorWitness | LoginPage.HandleLoginFresh |
