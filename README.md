# SkinWise client logic, modelled in Dafny

SkinWise is a React Native client for a skin-care service. Its screens and contexts hold a small amount of real logic, and this project models it:

- **Session context**: `login`, `logout`, `refreshAuthToken` and the start-up restore (`checkLoginStatus`). The in-memory session fields are kept alongside a key-value store holding `accessToken`, `refreshToken` and `userData`.
- **Post lists** of the saved-posts, my-posts and community screens:
  - filter-then-format pipelines with their default values;
  - save toggles;
  - the expanded-comments list;
  - reply drafts per post;
  - locally appended replies;
  - the `addPost` callback, which the community screen hands to the create-post screen; that screen never calls it.
- **Sign-up screens**, three steps: form defaults, ordered validation (missing fields, the e-mail pattern, password match), the URL-encoded body and the multipart form data.
- **Password screens**: the reset screen's checks and body.
- **Verification screens**: the six-slot code entry, its focus moves, the completeness check and the resend countdown on both screens.
- **Create-post screen**: the form data, including the file name and MIME type derived from the image URI.
- **Prediction screen**: the state machine of the prediction screen, and the prediction history, which only ever grows by appending.

Each screen or context whose state changes becomes a `class` with methods that `modify` it. Each method's new state is stated through a pure step function of the old state, or field by field. The properties are proved about those step functions and about the pure helpers.

Inputs from outside the code are parameters. These include:
- server replies, and whether a request threw;
- storage failures, given as the set of keys whose storage call throws;
- picker outcomes;
- the current time;
- locale date formatting.

A few JavaScript behaviours are written out explicitly:
- truthiness, where `null`/`undefined` and `""` are false;
- `??` and `||` defaults;
- `String.prototype.trim` with JavaScript's whitespace set;
- `.length` counted in UTF-16 code units;
- `split(sep).pop()`;
- `encodeURIComponent`, with UTF-8 percent escapes;
- `JSON.stringify`/`JSON.parse` for flat objects of strings.

## Model

| member | source | states |
|---|---|---|
| AuthContext.SetItem | AuthContext.js:10-23 | the key is written unless its storage call throws; that failure is swallowed and every other key is unchanged |
| AuthContext.RemoveItem | AuthContext.js:44-57 | the key is removed unless its storage call throws; every other key is unchanged |
| AuthContext.GetItem | AuthContext.js:26-41 | the stored value, or null when the key is missing or its storage call throws |
| AuthContext.LoginStep | AuthContext.js:67-81 | the token, refresh token and user are set even when storage writes fail; each un-failed key holds access, refresh and the JSON of the user; no other key changes; isLoading ends false |
| AuthContext.LogoutStep | AuthContext.js:84-98 | the three fields become null; each un-failed session key is absent; every other key is unchanged; isLoading ends false |
| AuthContext.RefreshStep | AuthContext.js:101-132 | with no refresh token, or a thrown error: false and no change; ok reply: true, and the reply's access token is installed in state and store, nothing else; an ok reply without an access token: true, with the session's access token cleared; non-ok: false, full logout only for code token_not_valid, otherwise no change |
| AuthContext.RestoreStep | AuthContext.js:168-192 | the stored session is adopted only when all three stored values are non-empty, otherwise the fields stay as they were; the store is untouched; isLoading ends false; when the stored profile parses it becomes userData and the interval starts; when it does not parse, the tokens are still adopted but userData and the interval stay as they were; the interval starts only once userData has parsed |
| AuthContext.LoginThenRestore | AuthContext.js:67-192 | after a login with non-empty tokens, a restart restores the same tokens and the same user, and starts the interval |
| AuthContext.StaleIntervalNeverRefreshes | AuthContext.js:182-184 | the interval's captured refresh function sees the first render's null refresh token, so every firing returns false and changes nothing |
| AuthContext.StaleIntervalCounterexample | AuthContext.js:103-184 | after login("A1","R1"), an ok reply carrying "A2" leaves the token at A1 through the stale tick, but gives A2 through the intended tick |
| AuthContext.IntervalTick | AuthContext.js:182-184 | a firing that reads the current refresh token refreshes the access token on an ok reply |
| AuthContext.AuthProvider.constructor | AuthContext.js:60-64 | the initial state: loading, no session, over the persisted store |
| AuthContext.AuthProvider.Login | AuthContext.js:67-81 | the new state is LoginStep of the old |
| AuthContext.AuthProvider.Logout | AuthContext.js:84-98 | the new state is LogoutStep of the old |
| AuthContext.AuthProvider.RefreshAuthToken | AuthContext.js:101-132 | the new state and result are RefreshStep of the old state and the current refresh token |
| AuthContext.AuthProvider.CheckLoginStatus | AuthContext.js:165-194 | the new state is RestoreStep of the old |
| AuthContext.AuthProvider.StaleIntervalFires | AuthContext.js:182-184 | the new state and result are those of the interval firing as written (StaleIntervalTick: nothing changes and the result is false) |
| AuthContext.AuthProvider.CorrectedIntervalFires | AuthContext.js:182-184 | the new state and result are those of the corrected interval firing (IntervalTick), which the program does not perform |
| UserContext.AddAllAppends | UserContext.js:8-10 | adding entries one by one appends them, in order, after the earlier history |
| UserContext.HistoryFromEmpty | UserContext.js:6-10 | starting from the empty history, the list is exactly the entries added |
| UserContext.PredictionHistory.constructor | UserContext.js:6 | the history starts empty |
| UserContext.PredictionHistory.AddPrediction | UserContext.js:8-10 | the length grows by one, the new entry is last, and earlier entries are unchanged and in order |
| AIPrediction.PickStep | InAppScreens/AIPrediction.js:21-40 | a denied permission or a cancelled pick changes nothing; a pick sets the image and clears the prediction and treatment |
| AIPrediction.AnalyzeStep | InAppScreens/AIPrediction.js:42-48 | with no image nothing changes; otherwise loading starts and one analysis is pending |
| AIPrediction.CompleteStep | InAppScreens/AIPrediction.js:49-58 | when the delayed completion fires, loading ends, the prediction is Eczema and the four-line treatment is shown |
| AIPrediction.RemoveStep | InAppScreens/AIPrediction.js:61-65 | the image, prediction and treatment become null |
| AIPrediction.SaveEntry | InAppScreens/AIPrediction.js:67-80 | without a prediction nothing is saved; otherwise one entry: the prediction, the date, and the fixed saved treatment |
| AIPrediction.PickThenSaveAddsNothing | InAppScreens/AIPrediction.js:35-71 | right after a new pick, saving adds nothing |
| AIPrediction.AnalyzeThenSave | InAppScreens/AIPrediction.js:42-80 | analyzing then saving stores Eczema with the fixed treatment, which differs from the displayed one |
| AIPrediction.AIPredictionScreen.PickImage | InAppScreens/AIPrediction.js:21-40 | the new state is PickStep of the old |
| AIPrediction.AIPredictionScreen.AnalyzeImage | InAppScreens/AIPrediction.js:42-48 | the new state is AnalyzeStep of the old |
| AIPrediction.AIPredictionScreen.AnalysisCompletes | InAppScreens/AIPrediction.js:49-58 | the new state is CompleteStep of the old |
| AIPrediction.AIPredictionScreen.RemoveImage | InAppScreens/AIPrediction.js:61-65 | the new state is RemoveStep of the old |
| AIPrediction.AIPredictionScreen.SavePrediction | InAppScreens/AIPrediction.js:67-80 | the history gains exactly the saved entry, if any |
| Posts.FormatDate | screens/SavedPosts.js:53-62 | a missing, empty or "Unknown Date" input gives "Unknown Date"; anything else is formatted |
| Posts.FormatPost | screens/SavedPosts.js:101-110 | the defaults are id "unknown", "No Title", "No Content", image null and "Anonymous"; comments are null; saved only when is_saved is true |
| Posts.FormatAll | screens/SavedPosts.js:101-110 | every post is formatted, in order |
| Posts.SavedPostsView | screens/SavedPosts.js:99-110 | the kept posts are an order-preserving subsequence holding exactly the posts with is_saved true, each as often as in the reply; each shows as saved with comments unloaded |
| Posts.AuthorPostsView | screens/MyPostsScreen.js:89-100 | the kept posts are an order-preserving subsequence holding exactly the posts by the user, each as often as in the reply |
| Posts.WithoutId | screens/SavedPosts.js:288-291 | no post with the id remains |
| Posts.WithoutIdExact | screens/SavedPosts.js:288-291 | removal keeps every other post, in order and with its multiplicity |
| Posts.SetSaved | screens/SavedPosts.js:294-298 | only the saved field of the posts with the id changes |
| Posts.FindIndex | screens/MyPostsScreen.js:229 | the first post with the id, or none |
| Posts.WithComments | screens/SavedPosts.js:163-173 | posts with other ids are unchanged; each post with the id becomes the first such post carrying the comments |
| Posts.WithCommentsUnique | screens/SavedPosts.js:163-173 | with unique ids, exactly that post's comments field changes |
| Posts.ToggleMember | screens/SavedPosts.js:320-332 | the id's membership flips; every other id keeps its membership |
| Posts.ToggleTwice | screens/SavedPosts.js:320-332 | toggling an absent id twice restores the list |
| Posts.ToggleKeepsDistinct | screens/MyPostsScreen.js:245-258 | the expanded list never holds an id twice |
| Posts.SubmitGuard | screens/SavedPosts.js:195-253 | a reply is attempted exactly when the draft exists and is not all whitespace |
| Posts.FetchedComments | screens/SavedPosts.js:162-173 | comments are taken only from a success reply, with [] for missing comments |
| SavedPosts.AfterToggleSave | screens/SavedPosts.js:283-305 | a "Post unsaved." success removes exactly the posts with the id; any other success sets saved on them; anything else changes nothing |
| SavedPosts.SavedPostsScreen.FetchPosts | screens/SavedPosts.js:65-127 | the list is replaced by the formatted saved posts only when there is a token and a reply with posts; loading ends false |
| SavedPosts.SavedPostsScreen.HandleReplyChange | screens/SavedPosts.js:135-137 | only the draft of that post changes |
| SavedPosts.SavedPostsScreen.FetchDoctorComments | screens/SavedPosts.js:139-191 | a success reply installs the comments on the matching posts; otherwise nothing changes |
| SavedPosts.SavedPostsScreen.SubmitReply | screens/SavedPosts.js:193-254 | a blank draft, a missing token or a failed reply changes nothing; success re-fetches the comments and clears the draft |
| SavedPosts.SavedPostsScreen.ToggleSavePost | screens/SavedPosts.js:256-317 | the list becomes AfterToggleSave of the old list when a token exists |
| SavedPosts.SavedPostsScreen.ToggleCommentsVisibility | screens/SavedPosts.js:320-332 | the expanded list toggles; comments are fetched only when expanding a post whose comments were never loaded |
| MyPosts.UserTypeOf | screens/MyPostsScreen.js:31 | the profile's user type, or the string "null" |
| MyPosts.UserNameOf | screens/MyPostsScreen.js:32 | the profile's non-empty username, or null |
| MyPosts.StoredProfileFields | screens/MyPostsScreen.js:28-32 | a stored profile is read back with its own user type and username |
| MyPosts.AfterToggleSave | screens/MyPostsScreen.js:228-236 | on success, saved becomes data.saved when defined, otherwise the negated flag of the first matching post; with no matching post, or no success, nothing changes |
| MyPosts.ToggleSaveFlip | screens/MyPostsScreen.js:228-236 | with unique ids, flipping changes only that post's saved flag, and flipping twice restores the list |
| MyPosts.MyPostsScreen.FetchUserTypeAndName | screens/MyPostsScreen.js:26-42 | a stored profile that parses sets both fields; anything else leaves them |
| MyPosts.MyPostsScreen.FetchPosts | screens/MyPostsScreen.js:56-109 | nothing at all happens without a username; otherwise the list holds the user's formatted posts when the reply has them, and loading ends false |
| MyPosts.MyPostsScreen.HandleReplyChange | screens/MyPostsScreen.js:123-125 | only the draft of that post changes |
| MyPosts.MyPostsScreen.FetchDoctorComments | screens/MyPostsScreen.js:127-164 | a success reply installs the comments on the matching posts; otherwise nothing changes |
| MyPosts.MyPostsScreen.SubmitReply | screens/MyPostsScreen.js:166-206 | a blank draft, a missing token or a failed reply changes nothing; success re-fetches the comments and clears the draft |
| MyPosts.MyPostsScreen.ToggleSavePost | screens/MyPostsScreen.js:208-243 | the list becomes AfterToggleSave of the old list when a token exists |
| MyPosts.MyPostsScreen.ToggleCommentsVisibility | screens/MyPostsScreen.js:245-258 | the expanded list toggles; comments are fetched only for a post whose comments were never loaded |
| Community.IntToString | screens/CommunityScreen.js:33 | pk.toString(): an optional minus sign, then decimal digits |
| Community.DecimalRoundTrip | screens/CommunityScreen.js:33 | the digits read back as the number |
| Community.IntToStringInjective | screens/CommunityScreen.js:33 | distinct keys give distinct ids |
| Community.FormatServerPost | screens/CommunityScreen.js:32-39 | id is pk as text; title and text come from fields; the image URL is the host plus the path when the path is non-empty, else none; author is "User" |
| Community.ForumList | screens/CommunityScreen.js:41-52 | the static example post first, then the server posts formatted, in order |
| Community.ForumListIdsDistinct | screens/CommunityScreen.js:31-52 | with distinct keys, no two posts of the list share an id |
| Community.AddReply | screens/CommunityScreen.js:73-84 | the posts with the id gain the draft as their last reply, starting from none; all else is unchanged |
| Community.CommunityScreen.FetchPosts | screens/CommunityScreen.js:25-62 | a success replaces the list; anything else keeps it; loading ends false |
| Community.CommunityScreen.HandleReplyChange | screens/CommunityScreen.js:69-71 | only the draft of that post changes |
| Community.CommunityScreen.SubmitReply | screens/CommunityScreen.js:73-84 | a non-blank draft is appended untrimmed and cleared; a blank one changes nothing |
| Community.CommunityScreen.AddPost | screens/CommunityScreen.js:143 | the new post is prepended |
| SignupStep1.RoleOf | screens/SignupScreen.js:21 | the passed role, or "User" |
| SignupStep1.InitialForm | screens/SignupScreen.js:22-28 | five fields, all empty except the role |
| SignupStep1.CanProceedAfterFilling | screens/SignupScreen.js:22-59 | the initial form cannot proceed; filling the four personal fields lets it |
| SignupStep1.SignupStep1Screen.constructor | screens/SignupScreen.js:21-31 | the initial form, the picker closed, and the current time as the temporary date |
| SignupStep1.SignupStep1Screen.HandleInputChange | screens/SignupScreen.js:35-37 | only the named field changes |
| SignupStep1.SignupStep1Screen.HandleDateChange | screens/SignupScreen.js:39-43 | a missing date is ignored |
| SignupStep1.SignupStep1Screen.HandleDateConfirm | screens/SignupScreen.js:45-50 | the formatted date is written to dateOfBirth and the picker closes |
| SignupStep1.SignupStep1Screen.HandleNext | screens/SignupScreen.js:52-59 | the form is passed on exactly when first name, last name, gender and date of birth are all non-empty |
| SignupStep2.InitialForm | screens/SignupScreen2.js:8-17 | four fields are copied from step one; the four new ones are empty; there is no gender key |
| SignupStep2.PushMissingIsFilter | screens/SignupScreen2.js:27-32 | the successive pushes append the labels of the empty values, in check order |
| SignupStep2.MissingFieldsExact | screens/SignupScreen2.js:27-37 | the list names exactly the empty ones among Username, Email, Password, Confirm Password and Gender, in that order; it is empty exactly when all five are filled |
| SignupStep2.EmailCheckMatchesPattern | screens/SignupScreen2.js:40-41 | the computed check accepts exactly the strings matching ^[^\s@]+@[^\s@]+\.[^\s@]+$ |
| SignupStep2.SignupBodyFields | screens/SignupScreen2.js:53 | the body splits into the eight fields in order, f_name to user_type, each value URI-encoded |
| SignupStep2.Validate | screens/SignupScreen2.js:26-53 | missing fields are checked first, then the e-mail, then the password match; the first failure stops; otherwise the body is sent |
| SignupStep2.SentFormIsValid | screens/SignupScreen2.js:26-53 | a sent form has a pattern-conforming e-mail, equal non-empty passwords, a username and a gender |
| SignupStep2.SignupStep2Screen.HandleInputChange | screens/SignupScreen2.js:19-21 | only the named field changes |
| SignupStep2.SignupStep2Screen.ValidateAndSubmit | screens/SignupScreen2.js:23-88 | a request is made exactly when validation passes, carrying the signup body; the verification screen gets the e-mail and username only for an ok reply that parses |
| SignupStep3.CompleteAfterFilling | screens/SignupScreen3.js:8-40 | the initial details cannot be submitted; three non-empty texts and an image can |
| SignupStep3.SignupStep3Screen.HandleChange | screens/SignupScreen3.js:15-17 | only the named field changes |
| SignupStep3.SignupStep3Screen.PickImage | screens/SignupScreen3.js:19-34 | a denied permission or a cancelled pick changes nothing; otherwise the image is the picked asset |
| SignupStep3.SignupStep3Screen.HandleSubmit | screens/SignupScreen3.js:36-87 | a request is made exactly when bio, specialization, clinic details and image are all set; it carries twelve parts in fixed order, the last being a JPEG named verification.jpg; the verification screen gets the e-mail and username only for an ok reply that parses |
| ResetPassword.CheckReset | screens/ResetPasswordScreen.js:21-48 | fewer than 6 UTF-16 units is rejected first, then a mismatch; otherwise the body is sent |
| ResetPassword.ResetBodyFields | screens/ResetPasswordScreen.js:48 | the body is the encoded e-mail and password, as username and new_password in that order |
| ResetPassword.ResetPasswordScreen.HandleResetPassword | screens/ResetPasswordScreen.js:21-83 | a rejected password leaves loading alone; after a request, loading is false on a reply and on an exception; only an ok reply leads to login |
| CodeEntry.EmptyCode | screens/EmailVerificationScreen.js:16 | six empty slots |
| CodeEntry.FullCodeIffAllFilled | screens/EmailVerificationScreen.js:51-52 | with one character per slot, the joined code has length 6 exactly when no slot is empty |
| CodeEntry.NextFocus | screens/EmailVerificationScreen.js:39-41 | focus moves to index + 1 only after a non-empty text and below the last slot |
| CodeEntry.PrevFocus | screens/EmailVerificationScreen.js:44-47 | Backspace in an empty slot above the first moves focus to index - 1 |
| CodeEntry.Settle | screens/EmailVerificationScreen.js:21-32 | at 0 the button is re-enabled; above 0 nothing changes |
| CodeEntry.CountdownRuns | screens/EmailVerificationScreen.js:21-32 | each firing takes one second off; the button keeps its state until the timer reaches 0, and is then re-enabled |
| EmailVerification.VerifyPayloadRead | screens/EmailVerificationScreen.js:57-68 | the server reads back the e-mail and the joined code |
| EmailVerification.AfterResend | screens/EmailVerificationScreen.js:94-119 | a successful resend disables the button with 60 seconds left; a failure changes neither |
| EmailVerification.ResendThenCountdown | screens/EmailVerificationScreen.js:21-113 | after a successful resend the button stays disabled for 59 firings and is enabled by the 60th |
| EmailVerification.EmailVerificationScreen.HandleCodeChange | screens/EmailVerificationScreen.js:34-42 | only the slot changes, the code keeps six slots, and focus moves by NextFocus |
| EmailVerification.EmailVerificationScreen.HandleKeyPress | screens/EmailVerificationScreen.js:44-48 | focus moves by PrevFocus |
| EmailVerification.EmailVerificationScreen.VerifyCode | screens/EmailVerificationScreen.js:50-90 | a request is made exactly when the joined code has length 6; only an ok reply that parses leads to login |
| EmailVerification.EmailVerificationScreen.ResendCode | screens/EmailVerificationScreen.js:94-119 | the countdown becomes AfterResend of the old one |
| EmailVerification.EmailVerificationScreen.TimerTick | screens/EmailVerificationScreen.js:21-32 | one firing and its effect |
| PasswordResetVerification.VerifyBodyFields | screens/PasswordResetVerificationScreen.js:58 | the body is the encoded e-mail and code, as username_email and verification_code in that order |
| PasswordResetVerification.ResendBodyFields | screens/PasswordResetVerificationScreen.js:83 | the body is the encoded e-mail as username_email, and nothing else |
| PasswordResetVerification.AfterResend | screens/PasswordResetVerificationScreen.js:75-93 | 60 seconds in every case; the button is disabled unless the request threw |
| PasswordResetVerification.ResendThenCountdown | screens/PasswordResetVerificationScreen.js:21-93 | whatever the reply, the button is enabled after 60 firings; after a reply it stays disabled until then |
| PasswordResetVerification.PasswordResetVerificationScreen.HandleCodeChange | screens/PasswordResetVerificationScreen.js:32-39 | only the slot changes, the code keeps six slots, and focus moves by NextFocus |
| PasswordResetVerification.PasswordResetVerificationScreen.HandleKeyPress | screens/PasswordResetVerificationScreen.js:41-45 | focus moves by PrevFocus |
| PasswordResetVerification.PasswordResetVerificationScreen.HandleVerifyCode | screens/PasswordResetVerificationScreen.js:47-73 | a request is made exactly when the joined code has length 6; only an ok reply leads on, with the e-mail and code |
| PasswordResetVerification.PasswordResetVerificationScreen.HandleResendCode | screens/PasswordResetVerificationScreen.js:75-93 | the countdown becomes AfterResend of the old one, and the body carries the e-mail |
| PasswordResetVerification.PasswordResetVerificationScreen.TimerTick | screens/PasswordResetVerificationScreen.js:21-30 | one firing and its effect |
| CreatePost.ImageValue | screens/CreatePostScreen.js:53-63 | with an image: the file named after the URI's last '/' segment, typed image/ plus that name's last '.' segment; without one: null |
| CreatePost.ImagePartOfPath | screens/CreatePostScreen.js:54-59 | for a URI directory/base.ext the file is named base.ext and typed image/ext |
| CreatePost.CreatePostScreen.PickImage | screens/CreatePostScreen.js:24-35 | a cancelled pick changes nothing |
| CreatePost.CreatePostScreen.RemoveImage | screens/CreatePostScreen.js:37-39 | the image becomes null |
| CreatePost.CreatePostScreen.HandlePost | screens/CreatePostScreen.js:41-88 | blank text sends nothing and changes nothing, loading included; otherwise the parts are title "User Post", then content, then image; loading ends false; only an ok reply clears the text and image and leaves |
| CreatePost.CreatePostScreen.SendPost | screens/CreatePostScreen.js:47-87 | the three parts in order, the image part from ImageValue; loading ends false; only an ok reply clears the text and image and leaves |
| Common.TrimEmptyIffAllSpace | screens/CommunityScreen.js:74 | a draft trims to empty exactly when every character is whitespace |
| Common.LastSegmentIsLastPart | screens/CreatePostScreen.js:54-55 | the last segment has no separator and is a suffix preceded by a separator, or the whole text when there is none |
| Common.LastSegmentAfterSep | screens/CreatePostScreen.js:54-55 | the last segment of a + sep + b is b when b has no separator |
| Common.FilterExact | screens/SavedPosts.js:99 | filtering keeps order, and keeps exactly the passing elements with their multiplicity |
| Json.ParseStringify | AuthContext.js:179 | parsing the profile text that login stored gives the profile back |
| FormEncoding.EncodeUriComponent | screens/SignupScreen2.js:53 | the output holds only unreserved characters and percent escapes, and leaves unreserved text unchanged |
| FormEncoding.ParseFormBody | screens/SignupScreen2.js:53 | a body of well-formed fields splits back into exactly those fields |
| FormEncoding.OneFieldBody | screens/PasswordResetVerificationScreen.js:83 | a hand-written one-field body parses back to that single field |
| FormEncoding.TwoFieldBody | screens/ResetPasswordScreen.js:48 | a hand-written two-field body is the form body of those fields and parses back to them |

## Left out

- Rendering, styles, navigation, `Alert` and `Toast` are not modelled. Where a handler navigates, the model returns what it hands over instead.
- Real `fetch` calls, `setInterval`/`setTimeout` timing, and the interleaving of asynchronous handlers are not modelled. Replies are parameters. Timer firings and the analysis completion are explicit steps.
- Some updates read a stale closure: `posts.find` in the comment fetch and the save toggle, and `predictions` in `addPrediction`. These are modelled as if no other update ran in between.
- Community.CommunityScreen.AddPost: the `addPost` callback is passed to the create-post screen, which takes only `navigation` and on success only goes back (screens/CreatePostScreen.js:19 and :78), so nothing calls it; the my-posts screen opens the same screen with no callback. The callback would also close over the `posts` of the render that navigated, a stale closure the model does not capture: it prepends to the current list.
- Date and locale formatting (`toLocaleString`, `dayjs`, `toLocaleDateString`) is an uninterpreted `format` parameter. Only the "Unknown Date" guard is kept.
- The choice between AsyncStorage and localStorage is not modelled: the store is one key-value map, and failures are a set of failing keys.
- `isLoggedIn` in AuthContext.js is not modelled: it duplicates `checkLoginStatus` and is never called.
- The saved-posts screen's `fetchUserType` is not modelled: it only reads a display field.
- `JSON.stringify`/`JSON.parse` cover flat objects with string values only. `Json.Parse` returns `None` for every text outside that subset, including valid JSON that `JSON.parse` accepts (numbers, nested objects, whitespace between tokens, a value that is not an object).
- AuthContext.RestoreStep: for a stored profile that is valid JSON outside the modelled subset, such as `{"a": "b"}` or `{"id":1}`, the model takes the parse-failure branch and keeps `userData` with no interval started. The program adopts the parsed object and starts the interval (AuthContext.js:179-184).
- MyPosts.MyPostsScreen.FetchUserTypeAndName: for such a profile text the model leaves `userType` and `userName` unchanged. The program sets them from the parsed object (screens/MyPostsScreen.js:30-32).
- AuthContext.RefreshStep: an ok refresh reply whose body has no `access` is modelled as returning true with `userToken` cleared and the store untouched, the write of `undefined` counted as a failing storage call. On the web fallback, `localStorage` would instead store the text "undefined".
- `FormData` is a list of named parts. How React Native serializes it into a multipart body is not modelled.
- The `saved` property of the my-posts save reply is either a boolean or undefined. A `null` value is not modelled.
- A Community server record without `pk` (which would throw) is not modelled, and neither is a `posts` text that is not JSON, beyond counting both as failures.
- Posts.FormatPost: `post.id?.toString()` is modelled on ids that are already strings.
- SignupStep3.SignupStep3Screen.HandleChange: `handleChange` is only called with the three text fields. A call naming `verificationImage`, which would store a text as the image, is not modelled.
- CodeEntry.PrevFocus: it requires the slot index to be within the code. The screens only render six inputs, numbered 0 to 5.
- EmailVerification.VerifyPayloadRead: the e-mail is a string. An `undefined` e-mail, which `JSON.stringify` would drop, is not modelled.

## Findings

| source | as written | input that shows it | evidently intended | confidence | as-written member | corrected member |
|---|---|---|---|---|---|---|
| AuthContext.js:103, 182-184 | the interval created in `checkLoginStatus` keeps calling the `refreshAuthToken` of the first render, whose `refreshToken` is still null, so every firing returns false at line 103 | a session holding access token "A1" and refresh token "R1", and an interval firing whose ok reply carries "A2": the token stays "A1" | each firing refreshes with the current refresh token and installs the new access token | not executed | AuthContext.StaleIntervalCounterexample | AuthContext.IntervalTick |
