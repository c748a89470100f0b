# edmunds request core, modelled in Dafny

This project models the request-handling core of the edmunds framework:

- the Lumen dispatcher (`Dispatcher.php`), which finds a controller class from the URI segments and a route among that controller's declared routes;
- the older route helper (`RouteHelper.php`), which normalises a controller's route table in place, picks a method from it and runs the controller lifecycle;
- the application's handling of found routes, `abort` and maintenance mode;
- the controller bases: the HTTP base controller's `responseFlow`, the rights check, and the login-required controller;
- the authentication and roles middleware;
- the user's roles and rights;
- the client-side locale selection and the Python localization manager;
- the Python instance manager;
- input validation rules, the queued job and the log controller.

Each source file is one Dafny module. Pure decisions are functions. Each loop in the source is a method proved against a specification function. Objects whose fields the source updates are classes with `modifies` frames:
- the route helper's controller table;
- the user's rights cache;
- the manager's instance table;
- the validation rules;
- the response, the visitor, the queued job and the log controller.

Shared pieces live in their own modules:
- `Wrappers`: `Option` and `Result`.
- `Text`: ASCII case mapping, split and join.
- `Php`: PHP values and truthiness.
- `Routing`: verb normalisation, the namespace trim, the class-name pattern and the parameter check. Both routers share these.
- `HttpContext`: the response and visitor objects, recorded as lists of the calls made on them.

The two routers differ in three places, and the model keeps each as the code has it:

- **Positional matches in the dispatcher.** When a route's name equals the verb followed by a URI segment, `Dispatcher.php` (line 268) returns `false` from inside `getRoute`. Dispatch then answers NOT_FOUND (`Dispatcher.PositionalMatchIsNotFound`).
- **The dispatcher's root fallback.** `Dispatcher.php` (lines 238-249) keeps the last route *named* after the request verb as the root route (`Dispatcher.RemovalKeepsRoot`, `Dispatcher.OnlyIndexAndRootRoutesResolve`). The route helper instead answers from the root entry only when its verb list holds the request verb (`RouteHelper.RootNeedsListedVerb`).
- **Positional name matching.** The dispatcher lower-cases both the route name and verb-plus-segment before comparing them (`Dispatcher.php` line 263). The route helper (`RouteHelper.php` line 320) compares the table key with the lower-cased segment, so only lower-case keys match (`RouteHelper.MatchesAt`).

## Model

| member | source | states |
|---|---|---|
| Routing.NormalizeVerb | src/Core/Http/Dispatcher.php:132-136 | the verb is the lower-cased method, with `patch` turned into `put`; the result is already lower case |
| Routing.TrimBackslashes | src/Core/Http/Dispatcher.php:125 | no backslash is left at either end, and a namespace without backslashes is unchanged |
| Routing.ValidClassChars | src/Core/Http/Dispatcher.php:201-207 | a class name is valid exactly when it is registered and every character is a word character or a backslash, except that the last may be a newline |
| Dispatcher.ConstantsShape | src/Core/Http/Dispatcher.php:119-144 | the namespace has no backslash at either end; the default and home names are the namespace, a backslash and the configured name; the verb is the lower-cased method with `patch` as `put`; the segments are the request's |
| Routing.AreParametersValid | src/Core/Http/Dispatcher.php:302-313 | true exactly when every parameter matches its anchored pattern; on failure, the patterns before the first mismatch all matched and checking stopped there |
| Dispatcher.RoutesOf | src/Core/Bases/Http/Controllers/BaseController.php:39-42 | a controller that declares no routes has the empty route list; otherwise its own list |
| Dispatcher.Candidates | src/Core/Http/Dispatcher.php:157-174 | there are min(3, segment count) candidate class names, one per depth, each built from the segments up to that depth |
| Dispatcher.ProbeSkips | src/Core/Http/Dispatcher.php:158-191 | depths that are neither reserved nor registered do not change what getController returns |
| Dispatcher.FirstRegisteredCandidateWins | src/Core/Http/Dispatcher.php:185-190 | the first registered, non-reserved candidate is returned with the segments after its depth |
| Dispatcher.ReservedCandidateStopsProbing | src/Core/Http/Dispatcher.php:178-181 | a candidate equal to the home or default controller ends the search with nothing, home included |
| Dispatcher.HomeControllerTakesAllSegments | src/Core/Http/Dispatcher.php:161-193 | when every candidate is passed over, the home controller is returned with all segments if it is registered, otherwise nothing |
| Dispatcher.ProbeOutcome | src/Core/Http/Dispatcher.php:154-194 | every controller found is either a registered candidate reached after passing over all earlier depths, or the home controller with all segments |
| Dispatcher.BuildClassPath | src/Core/Http/Dispatcher.php:170-173 | the inner loop builds the class path of the segments up to depth i |
| Dispatcher.GetController | src/Core/Http/Dispatcher.php:154-194 | the loop computes the probe order above |
| Dispatcher.FirstNamed | src/Core/Http/Dispatcher.php:222 | finds a route exactly when one has the name, and it has that name |
| Dispatcher.LastNamed | src/Core/Http/Dispatcher.php:238-249 | the route found has the name; none is found only when no route has it |
| Dispatcher.InKeep | src/Core/Http/Dispatcher.php:231-234 | a route survives the removal exactly when it was declared and its name is not removed |
| Dispatcher.KeepTwice | src/Core/Http/Dispatcher.php:231-249 | removing one set of names and then another is removing both at once |
| Dispatcher.LastNamedKeep | src/Core/Http/Dispatcher.php:238-249 | removing other names does not change the last route with a given name |
| Dispatcher.FindIndexRoute | src/Core/Http/Dispatcher.php:220-228 | the loop finds the first `getIndex` route |
| Dispatcher.ForgetRoot | src/Core/Http/Dispatcher.php:240-248 | one root name's routes leave the table, and the last of them is remembered when it is the request verb |
| Dispatcher.TakeRootRoutes | src/Core/Http/Dispatcher.php:238-249 | all four root names leave the table, and the remembered route is the last one named after the verb |
| Dispatcher.FindPositional | src/Core/Http/Dispatcher.php:252-271 | the double loop answers true exactly when some route is named after the verb and the segment at its own position |
| Dispatcher.RemovalKeepsPositional | src/Core/Http/Dispatcher.php:231-271 | removing the index and root routes first does not change whether a positional match exists |
| Dispatcher.RemovalKeepsRoot | src/Core/Http/Dispatcher.php:231-249 | removing the `getIndex` routes does not change the root route |
| Dispatcher.GetRoute | src/Core/Http/Dispatcher.php:216-295 | the imperative removal and search returns the route chosen from the declared routes: index, `false` on a positional match, or a root route whose parameter count fits |
| Dispatcher.ForgetNamed | src/Core/Http/Dispatcher.php:231-234 | the forget loop removes exactly the routes with the name, keeping the order |
| Dispatcher.AttachedMiddleware | src/Core/Http/Dispatcher.php:81-100 | the route's own middleware comes first; then `core.auth` and `core.rights` when rights are required, `core.auth` alone for a login-required controller, nothing otherwise |
| Dispatcher.TransactionName | src/Core/Http/Dispatcher.php:65 | the name is the controller with the namespace and the ten-character suffix cut off, no backslash left, then `@` and the route name |
| Dispatcher.TransactionNameOfPath | src/Core/Http/Dispatcher.php:65 | for a controller named namespace, path, `Controller`, the name is the path with `/` for `\`, then `@` and the route name |
| Dispatcher.TransactionNameOfCandidate | src/Core/Http/Dispatcher.php:65 | a probed controller's transaction name is its class path with `/` separators, then `@` and the route name |
| Dispatcher.Dispatch | src/Core/Http/Dispatcher.php:50-111 | dispatch computes the FOUND or NOT_FOUND result of the request's constants |
| Dispatcher.DispatchProbed | src/Core/Http/Dispatcher.php:58-111 | after getController, the route lookup, parameter check and result shape agree with the specification function |
| Dispatcher.FoundShape | src/Core/Http/Dispatcher.php:59-111 | NOT_FOUND exactly when nothing resolves; FOUND goes through `responseFlow` with the resolved route and parameters, a middleware key exactly when something gates the route, and required rights exactly when the route has some |
| Dispatcher.OnlyIndexAndRootRoutesResolve | src/Core/Http/Dispatcher.php:216-295 | only the index route (GET, no segments) or a root route named after the verb, with fitting and valid parameters, ever resolves |
| Dispatcher.PositionalMatchIsNotFound | src/Core/Http/Dispatcher.php:252-271 | a positional match always ends in NOT_FOUND |
| Dispatcher.RightsAttachAuthThenRights | src/Core/Http/Dispatcher.php:82-91 | with rights on the route, the gate is exactly `core.auth` then `core.rights` after the route's own middleware |
| RouteHelper.NormalizeSpec | src/Core/Helpers/RouteHelper.php:226-250 | a normalised route has its method, parameter and role entries set, defaults to `get`, keeps given values, and an already normalised route is unchanged |
| RouteHelper.FirstPositional | src/Core/Helpers/RouteHelper.php:307-344 | finds the first URI position whose lower-cased segment is a truthy key of its bucket, and no earlier position matches |
| RouteHelper.Controller.Prepare | src/Core/Helpers/RouteHelper.php:203-253 | prepareController moves the named routes into bucket 0, normalises every route and empties the named list |
| RouteHelper.Controller.GetMethodName | src/Core/Helpers/RouteHelper.php:275-367 | getMethodName's result and the pruned table are those of the specification function |
| RouteHelper.NormalizeTable | src/Core/Helpers/RouteHelper.php:221-252 | the outer loop normalises every bucket |
| RouteHelper.NormalizeRoutes | src/Core/Helpers/RouteHelper.php:223-251 | the inner loop normalises every route of a bucket |
| RouteHelper.PreparedShape | src/Core/Helpers/RouteHelper.php:203-253 | bucket 0 exists and holds its own routes plus the named ones, every route is normalised, and the others are their normalised selves |
| RouteHelper.PrepareIdempotent | src/Core/Helpers/RouteHelper.php:203-253 | preparing a prepared table again changes nothing |
| RouteHelper.PruneKeepsNormalized | src/Core/Helpers/RouteHelper.php:290-301 | removing `index` and `/` keeps the table normalised |
| RouteHelper.IndexLostAfterSegments | src/Core/Helpers/RouteHelper.php:278-301 | once segments are given, the index and root routes are gone for good, and a later empty path finds no method |
| RouteHelper.IndexResolution | src/Core/Helpers/RouteHelper.php:278-289 | with no segments the table is untouched, and a method (`<verb>Index`) is found exactly when the index route lists the verb |
| RouteHelper.VerbMismatchBlocksRoot | src/Core/Helpers/RouteHelper.php:335-339 | a positional match that does not list the verb ends the search with no method, and the root route is not consulted |
| RouteHelper.MethodShape | src/Core/Helpers/RouteHelper.php:341-363 | a method is returned with as many patterns as parameters; the parameters are the segments, minus at most the segment that names the method |
| RouteHelper.RootNeedsListedVerb | src/Core/Helpers/RouteHelper.php:347-356 | the root route answers with a method name exactly when it lists the verb |
| RouteHelper.Candidate | src/Core/Helpers/RouteHelper.php:176 | the probed class is the namespace, the class path, then `AjaxController` for ajax requests or `Controller` otherwise |
| RouteHelper.ProbeSkips | src/Core/Helpers/RouteHelper.php:160-194 | depths that are passed over do not change what getController returns |
| RouteHelper.ProbeFirstWins | src/Core/Helpers/RouteHelper.php:176-193 | a reserved candidate ends the search with nothing; otherwise the first registered one wins with the segments after it |
| RouteHelper.ProbeFallsBackToHome | src/Core/Helpers/RouteHelper.php:163-196 | the home controller is tried with all segments only after every candidate is passed over |
| RouteHelper.BuildClassPath | src/Core/Helpers/RouteHelper.php:172-175 | the inner loop builds the class path (upper-case first letter, no lower-casing) |
| RouteHelper.GetController | src/Core/Helpers/RouteHelper.php:156-196 | the loop computes the probe order above |
| RouteHelper.AuthenticationChecks | src/Core/Helpers/RouteHelper.php:393-407 | the request goes on exactly when the controller has no authentication check or its check passes; otherwise the route is stored as the intended route |
| RouteHelper.CallMethod | src/Core/Helpers/RouteHelper.php:417-475 | the default controller is initialised, then this controller is initialised and pre-rendered; the method is called with at most ten parameters (more give a 404 response); then post-render |
| RouteHelper.MissingConfig | src/Core/Helpers/RouteHelper.php:481-501 | at most the required keys are reported missing |
| RouteHelper.MissingConfigExactly | src/Core/Helpers/RouteHelper.php:481-501 | a key is reported exactly when it is required and its setting is falsy |
| RouteHelper.CheckConfig | src/Core/Helpers/RouteHelper.php:481-501 | passes exactly when every required setting is truthy; otherwise fails with the non-empty missing list |
| RouteHelper.ResolveRequest | src/Core/Helpers/RouteHelper.php:65-91 | makes, prepares and consults the controller as the resolution function says |
| RouteHelper.RouteHandler | src/Core/Helpers/RouteHelper.php:65-102 | routeHandler's outcome is the specification function's |
| RouteHelper.Route | src/Core/Helpers/RouteHelper.php:46-58 | fails with the missing keys exactly when a required setting of src/Core/_config/core.php is falsy, and otherwise hands over to routeHandler |
| RouteHelper.ValidRouteChars | src/Core/Helpers/RouteHelper.php:109-113 | a route string is valid exactly when every character is a word character or one of `/ $ - _ . + ! *`, except that the last may be a newline (PCRE's `$`) |
| RouteHelper.InvalidRouteIs404 | src/Core/Helpers/RouteHelper.php:68-71 | a route string holding a character outside the accepted class, other than one final newline, is invalid and is a 404 |
| RouteHelper.ConstantsShape | src/Core/Helpers/RouteHelper.php:119-145 | the namespace has no backslash at either end; the default and home names are the namespace, a backslash and the configured name; the verb is the lower-cased method with `patch` as `put`; the ajax flag and segments are the request's |
| RouteHelper.CalledShape | src/Core/Helpers/RouteHelper.php:65-102 | a called method had a valid route, valid parameters and passed authentication, and runs between the lifecycle hooks |
| RouteHelper.RedirectHaltMustBeTruthy | src/Core/_config/core.php:26-32 | a redirect-halt setting of false fails the configuration check |
| Application.AbortFor | src/Core/Application.php:151-168 | code 200 throws the abort exception; any other code throws an exception answering with that code; the message is kept |
| Application.AbortAgreesWithConcern | src/Core/Application.php:151-168 | the application's abort and the exception-handler concern's throw the same exception kind for every code; for 200 these are two distinct `AbortHttpException` classes, `Core\Http\Exceptions` (Application.php line 17) and `Edmunds\Http\Exceptions` (RegistersExceptionHandlers.php line 13), and only the first is caught by `Application::dispatch` |
| Application.IsStateful | src/Core/Application.php:55-58 | the stateful setting, true when it is not configured |
| Application.HandleFoundRoute | src/Core/Application.php:125-139 | a route without `uses` is unchanged; one with `uses` keeps a `uses` |
| Application.RewriteRoutesThroughResponseFlow | src/Core/Application.php:127-136 | `C@m` becomes `C@responseFlow`, with `m` and the old parameters as the new parameters |
| Application.RewriteKeepsController | src/Core/Application.php:129-132 | the rewritten `uses` names the same controller and the method `responseFlow` |
| Application.DispatchOutcome | src/Core/Application.php:93-117 | maintenance mode raises 503 before routing; a response is returned; the abort exception is caught, every other exception propagates |
| Application.OnlyAbort200IsCaught | src/Core/Application.php:95-107 | of all abort codes, only 200 is caught by dispatch; the rest propagate unchanged |
| ExceptionHandlers.Abort | src/Edmunds/Foundation/Concerns/RegistersExceptionHandlers.php:37-54 | 200 gives the abort exception; 401 gives a Basic challenge; any other code gives an exception answering with that code; headers go only with the generic exception |
| ExceptionHandlers.AbortWithoutCode | src/Edmunds/Foundation/Concerns/RegistersExceptionHandlers.php:37-42 | abort with no code throws the abort exception |
| ExceptionHandlers.AbortDistinguishesCodes | src/Edmunds/Foundation/Concerns/RegistersExceptionHandlers.php:39-53 | different codes throw different exceptions |
| AuthMiddleware.HandleOutcome | src/Core/Auth/Middleware/AuthMiddleware.php:46-67 | the request goes on exactly for a logged-in visitor or a guest of a plain request; 401 exactly for a guest under a basic guard; 403 exactly for a guest making an ajax, JSON or XML request under another guard |
| AuthMiddleware.BasicGuardBeforeFormat | src/Core/Auth/Middleware/AuthMiddleware.php:50-54 | a basic-guarded guest gets 401 even for an ajax request |
| AuthMiddleware.Handle | src/Core/Auth/Middleware/AuthMiddleware.php:40-68 | handle's outcome is the decision above, and a guest who goes on has been redirected to the login route |
| RolesMiddleware.Handle | src/Core/Auth/Middleware/RolesMiddleware.php:38-65 | allows exactly a logged-in visitor with every required role; the loop stops at the first missing role |
| RolesMiddleware.GuestForbidden | src/Core/Auth/Middleware/RolesMiddleware.php:43-62 | a guest is refused even when no role is required |
| RolesMiddleware.MoreRolesNarrow | src/Core/Auth/Middleware/RolesMiddleware.php:47-56 | requiring more roles never lets more visitors through |
| HttpControllerBase.DefaultAssignments | src/Core/Bases/Http/Controllers/BaseController.php:138-148 | five assignments, in order, including the user as `__login` |
| HttpControllerBase.RecordedStatus | src/Core/Bases/Http/Controllers/BaseController.php:126-129 | a success status is recorded exactly when the method returned a boolean, and it is that boolean |
| HttpControllerBase.Writes | src/Core/Bases/Http/Controllers/BaseController.php:104-133 | each call on the response becomes one write entry of the trail, in the same order |
| HttpControllerBase.WrittenAppend | src/Core/Bases/Http/Controllers/BaseController.php:104-133 | the calls recorded by two trails run one after the other are those of each, in order |
| HttpControllerBase.MarkersAppend | src/Core/Bases/Http/Controllers/BaseController.php:104-133 | the lifecycle steps of two trails run one after the other are those of each, in order |
| HttpControllerBase.WrittenWrites | src/Core/Bases/Http/Controllers/BaseController.php:104-133 | a run of plain writes records exactly those calls and no lifecycle step |
| HttpControllerBase.AppendStep | src/Core/Bases/Http/Controllers/BaseController.php:110-123 | a lifecycle step followed by the calls it makes adds that step to the lifecycle and those calls to the response |
| HttpControllerBase.FlowWritten | src/Core/Bases/Http/Controllers/BaseController.php:104-133 | the response receives the defaults, the default controller's and this controller's initialize writes, the method's writes, the two finalize writes in reverse order, then the success status |
| HttpControllerBase.FlowMarkers | src/Core/Bases/Http/Controllers/BaseController.php:110-123 | the lifecycle steps are default initialize, initialize, the routed method, finalize, default finalize, in that order |
| HttpControllerBase.FlowEnds | src/Core/Bases/Http/Controllers/BaseController.php:106-130 | the defaults open the trail; the default finalize and its writes close it, followed only by `success` when the method returned a boolean |
| HttpControllerBase.FlowOrder | src/Core/Bases/Http/Controllers/BaseController.php:104-133 | the defaults are assigned before anything else; default initialize, initialize, the routed method, finalize and default finalize come in that order; `success` is assigned last, after the default finalize, exactly when the method returned a boolean; the response receives every hook's and the method's writes in that order |
| HttpControllerBase.Controller.constructor | src/Core/Bases/Http/Controllers/BaseController.php:83-95 | the controller's output type overrides the response's only when it is set |
| HttpControllerBase.Controller.AssignDefaults | src/Core/Bases/Http/Controllers/BaseController.php:138-148 | the five default assignments are made on the response, in order, and open the trail |
| HttpControllerBase.Controller.RecordSuccess | src/Core/Bases/Http/Controllers/BaseController.php:125-129 | `success` is assigned on the response exactly when the method returned a boolean, and the trail records it |
| HttpControllerBase.Controller.RunStep | src/Core/Bases/Http/Controllers/BaseController.php:113-123 | running one lifecycle step appends it and its writes to the trail, and the response holds exactly the trail's writes |
| HttpControllerBase.Controller.ResponseFlow | src/Core/Bases/Http/Controllers/BaseController.php:104-133 | the trail is the one FlowOrder describes for the routed method's own result and writes; the response has received exactly the trail's writes; what is returned is the response's contents and the output type is untouched |
| ControllerBase.HasAllRights | src/Core/Bases/Controllers/BaseController.php:103-111 | true exactly when the user has every required right; otherwise reports the first missing one |
| ControllerBase.MissingRightRefuses | src/Core/Bases/Controllers/BaseController.php:99-125 | a logged-in visitor lacking one required right is refused |
| ControllerBase.GuestPassesOnlyWhenLoginRequired | src/Core/Bases/Controllers/BaseController.php:94-125 | with rights required, a guest passes exactly on a login-required controller |
| ControllerBase.CheckRights | src/Core/Bases/Controllers/BaseController.php:91-126 | answers 401 exactly when the visitor is not authorised, and changes nothing else |
| ControllerBase.Controller.constructor | src/Core/Bases/Controllers/BaseController.php:77-86 | the constructor runs the rights check as a plain controller |
| LoginRequired.LoginAttempt | src/Core/Controllers/Login/LoginRequiredController.php:53-56 | a login is attempted exactly when both credentials are truthy, and with them as given |
| LoginRequired.AsWrittenLosesEmail | src/Core/Controllers/Login/LoginRequiredController.php:53 | the condition as written fires on the same inputs, but always passes `true` as the e-mail address |
| LoginRequired.AsWrittenExample | src/Core/Controllers/Login/LoginRequiredController.php:53 | for the credentials ann@example.com and secret, the code as written logs in with `true` instead of the e-mail address |
| LoginRequired.GuestIsStopped | src/Core/Controllers/Login/LoginRequiredController.php:46-69 | a guest is logged in by basic authentication, challenged with 401, or redirected to log in |
| LoginRequired.CheckLogin | src/Core/Controllers/Login/LoginRequiredController.php:46-69 | the visitor is logged in afterwards exactly when they were before or basic credentials were accepted; the response records the challenge or the redirect |
| LoginRequired.LoginRequiredController.constructor | src/Core/Controllers/Login/LoginRequiredController.php:33-40 | the rights check as a login-required controller, then checkLogin with the given authentication type (the login redirect by default), then the user assigned as `__login` |
| UserModel.User.Roles | src/Core/Models/User.php:81-88 | the roles, or the exception exactly when the role class is not set |
| UserModel.User.HasRole | src/Core/Models/User.php:95-98 | true exactly when one of the roles has the id; the exception when the role class is not set |
| UserModel.User.HasRight | src/Core/Models/User.php:105-124 | the first call fills the cache with the unique rights of all roles and answers from them; later calls answer from the cache |
| UserModel.AllRightsMembers | src/Core/Models/User.php:110-119 | a right is collected exactly when some role grants it |
| UserModel.DedupMembers | src/Core/Models/User.php:120 | array_unique keeps exactly the values there were |
| UserModel.DedupDistinct | src/Core/Models/User.php:120 | array_unique leaves no duplicate |
| UserModel.RightsOfIsTheUnion | src/Core/Models/User.php:108-123 | the cached list holds each right of each role exactly once |
| UserModel.CollectRights | src/Core/Models/User.php:110-119 | the nested loops collect every role's rights in order |
| UserModel.ArrayUnique | src/Core/Models/User.php:120 | the loop keeps the first occurrence of each value |
| ClientLocalization.SelectLocales | src/Core/Structures/Client/Localization.php:38-94 | the constructor's steps compute the decision table of locale and fallback |
| ClientLocalization.LocalePriority | src/Core/Structures/Client/Localization.php:43-77 | a user's truthy locale wins, else the browser's, else the application's locale and fallback |
| ClientLocalization.FallbackDiffersFromLocale | src/Core/Structures/Client/Localization.php:62-89 | the fallback equals the locale only when it is the application's fallback locale |
| ClientLocalization.Localization.constructor | src/Core/Structures/Client/Localization.php:38-94 | the object holds the chosen locale and fallback |
| LocalizationManager.TakeUntilEmpty | edmunds/localization/localizationmanager.py:178-181 | keeps the non-empty parts before the first empty one |
| LocalizationManager.TakeUntilEmptyAt | edmunds/localization/localizationmanager.py:178-181 | the kept prefix ends exactly at the first empty part |
| LocalizationManager.NormalizeLocale | edmunds/localization/localizationmanager.py:159-187 | the loop computes the normalisation function |
| LocalizationManager.NormalizedParts | edmunds/localization/localizationmanager.py:165-184 | a normalised locale is the lower-cased language and upper-cased parts joined with `_`, none empty and none holding `_` or `-` |
| LocalizationManager.NormalizeClean | edmunds/localization/localizationmanager.py:159-187 | a locale already in normal form is unchanged |
| LocalizationManager.NormalizeIdempotent | edmunds/localization/localizationmanager.py:159-187 | normalising twice is normalising once |
| LocalizationManager.NormalizedShape | edmunds/localization/localizationmanager.py:165-174 | a normalised locale is non-empty and has no `-`; a missing or empty locale gives None |
| LocalizationManager.NormalizeDashed | edmunds/localization/localizationmanager.py:169 | `en-us` becomes `en_US` |
| LocalizationManager.NormalizeDropsAfterEmptyPart | edmunds/localization/localizationmanager.py:178-180 | `en__US` becomes `en` |
| LocalizationManager.NormalizeUltimateFallback | edmunds/localization/localizationmanager.py:147-148 | the ultimate fallback `en_US` is already normal |
| LocalizationManager.WithLanguage | edmunds/localization/localizationmanager.py:95-100 | a locale is followed by its language exactly when it has a territory |
| LocalizationManager.NormalizedAll | edmunds/localization/localizationmanager.py:88-90 | the Accept-Language values that normalise to nothing are dropped |
| LocalizationManager.GetBrowserAcceptLocaleStrings | edmunds/localization/localizationmanager.py:82-102 | as intended (see Findings): the backup loop appends each locale's language after the locales |
| LocalizationManager.LocaleStrings | edmunds/localization/localizationmanager.py:104-124 | as intended (see Findings): nothing for a locale that normalises to nothing; otherwise the normalised locale first |
| LocalizationManager.UltimateFallbackStrings | edmunds/localization/localizationmanager.py:146-155 | the ultimate fallback contributes `en_US` and `en` |
| LocalizationManager.FallbackStrings | edmunds/localization/localizationmanager.py:126-157 | as intended (see Findings): the fallback list always ends with `en_US` and `en` |
| LocalizationManager.PreferredStartsWithBrowser | edmunds/localization/localizationmanager.py:61-64 | the preferred list is never empty and starts with the browser's first locale when there is one |
| LocalizationManager.ChooseLocale | edmunds/localization/localizationmanager.py:51-80 | with the intended unpacking, choosing a locale never raises ValueError |
| LocalizationManager.ChooseLocaleWithoutSupported | edmunds/localization/localizationmanager.py:67-77 | without the supported filter the first preferred locale is chosen, the browser's first when there is one; there is always a preferred locale |
| LocalizationManager.UnpackSingle | edmunds/localization/localizationmanager.py:98 | a single-target unpack succeeds exactly when there is one part |
| LocalizationManager.BackupAsWrittenFails | edmunds/localization/localizationmanager.py:97-98 | the backup as written fails exactly for locales with a territory |
| LocalizationManager.ChooseLocaleAsWrittenAlwaysFails | edmunds/localization/localizationmanager.py:61-64 | as written, the fallback list, and so every locale choice, raises ValueError |
| LocalizationManager.Location | edmunds/localization/localizationmanager.py:19-35 | a location driver exactly when location is enabled, and the one the driver manager gives for the name and the `no_instance_error` flag (both defaulted as in the source) |
| InstanceManager.Lookup | edmunds/foundation/patterns/manager.py:41-44 | an instance is found exactly when the table has the name |
| InstanceManager.FirstNamed | edmunds/foundation/patterns/manager.py:99-103 | the first configuration entry with the name, and no earlier entry has it |
| InstanceManager.BuildTableErrorSticks | edmunds/foundation/patterns/manager.py:68-77 | once building fails on an entry, loading fails with that error |
| InstanceManager.BuildTableShape | edmunds/foundation/patterns/manager.py:68-77 | a loaded table lists the configured names in order, each once, each with the driver made from its own entry |
| InstanceManager.DuplicateNameFails | edmunds/foundation/patterns/manager.py:72-73 | a name declared twice makes loading fail |
| InstanceManager.GetFrom | edmunds/foundation/patterns/manager.py:36-44 | no instances is an error; no name gives the first declared instance; a name is found exactly when it is in the table |
| InstanceManager.Manager.constructor | edmunds/foundation/patterns/manager.py:11-24 | no instances loaded and no extensions |
| InstanceManager.Manager.Resolve | edmunds/foundation/patterns/manager.py:89-117 | the loop resolves the first configuration entry with the name |
| InstanceManager.Manager.Load | edmunds/foundation/patterns/manager.py:57-77 | builds the table only when there is none; a failure leaves it unset and reports the error |
| InstanceManager.Manager.Get | edmunds/foundation/patterns/manager.py:27-44 | loads, then answers as GetFrom on the loaded table |
| InstanceManager.Manager.All | edmunds/foundation/patterns/manager.py:47-54 | loads, then every instance in declaration order |
| InstanceManager.Manager.Reload | edmunds/foundation/patterns/manager.py:80-86 | drops the cached table and keeps the extensions |
| InstanceManager.Manager.Extend | edmunds/foundation/patterns/manager.py:120-131 | registers the factory, drops the cache, and the next load builds with the new factory |
| InstanceManager.ExtensionTakesPrecedence | edmunds/foundation/patterns/manager.py:110-115 | a registered factory is used instead of the create method |
| InputValidation.RenderEntry | src/Core/Structures/Validation.php:83 | an entry renders as its key, followed by `:value` when it has a value |
| InputValidation.Rendered | src/Core/Structures/Validation.php:79-90 | at most one rendered string per entry |
| InputValidation.RuleStringRoundTrip | src/Core/Structures/Validation.php:93 | splitting the rule string at `|` gives back the rendered entries when no entry holds `|` |
| InputValidation.CompilePlacesEachName | src/Core/Structures/Validation.php:101-135 | each listed name with a rule lands in exactly one map: the sometimes map when the rule has a `sometimes` entry, the plain one otherwise, each with its rule string |
| InputValidation.RenderRule | src/Core/Structures/Validation.php:79-90 | the entry loop renders every entry except `sometimes`, and keeps the last `sometimes` value |
| InputValidation.Validation.constructor | src/Core/Structures/Validation.php:44-50 | no rules, and the input kept only when it is truthy |
| InputValidation.Validation.SetInput | src/Core/Structures/Validation.php:56-59 | stores the input whatever it is |
| InputValidation.Validation.Rule | src/Core/Structures/Validation.php:171-178 | creates an empty rule only when there is none with the name, and returns the rule |
| InputValidation.Validation.GetValidator | src/Core/Structures/Validation.php:66-135 | all rules in creation order, or only the given names, compiled as specified |
| InputValidation.AllRulesCompiled | src/Core/Structures/Validation.php:71-99 | with all rules compiled, every created rule is handed over exactly once |
| QueueJobs.RunCountIsCapped | src/Core/Jobs/QueueJob.php:63-69 | retrying never calls the callable more often than the maximum number of attempts |
| QueueJobs.QueueJob.constructor | src/Core/Jobs/QueueJob.php:51-58 | the callable, arguments, queue and maximum are stored; by default one attempt |
| QueueJobs.QueueJob.Handle | src/Core/Jobs/QueueJob.php:63-69 | calls the callable with its arguments exactly when the attempt is within the maximum |
| QueueJobs.DefaultJobRunsOnce | src/Core/Jobs/QueueJob.php:51-69 | a job made with the defaults runs exactly once however often it is retried |
| LogController.Only | src/Core/Foundation/Controllers/LogController.php:106-108 | keeps exactly the fields with the listed keys, unchanged |
| LogController.RootedPath | src/Core/Foundation/Controllers/LogController.php:139 | the path always starts with `/`; an absolute path is kept, anything else gets `/` in front |
| LogController.RootedPathIdempotent | src/Core/Foundation/Controllers/LogController.php:139 | rooting a rooted path changes nothing |
| LogController.RootedPathOfZero | src/Core/Foundation/Controllers/LogController.php:139 | the falsy path `0` is rooted as `/0` |
| LogController.ValidItemsMembers | src/Core/Foundation/Controllers/LogController.php:177-189 | only valid items are kept, all of them when all are valid, none when none are, each cut down to the item keys |
| LogController.KeepValidItems | src/Core/Foundation/Controllers/LogController.php:175-191 | the item loop keeps the valid items in order |
| LogController.PostLogOutcome | src/Core/Foundation/Controllers/LogController.php:50-69 | true exactly when the lower-cased type is known and the log validates; a record is logged exactly then, of that type |
| LogController.TypeIsCaseInsensitive | src/Core/Foundation/Controllers/LogController.php:52 | the type is matched case-insensitively |
| LogController.LogController.PostLog | src/Core/Foundation/Controllers/LogController.php:50-196 | answers as above and appends exactly the logged record |

## Left out

- Routing: the route table's URI positions are natural numbers, so negative numeric keys are not modelled.
- PHP loose comparison and numeric strings are not modelled. This covers Localization's `!=`, the loose `switch` in `abort`, and role ids compared as integers.
- The redirect-halt debug branch and `viewRedirect` of `RouteHelper::route` are not modelled. They depend on the environment.
- Making the default controller is not modelled: `app($defaultControllerName)` in `responseFlow` (`src/Core/Bases/Http/Controllers/BaseController.php` line 110) and `App::make($defaultControllerName)` in the route helper (`src/Core/Helpers/RouteHelper.php` line 83). In the first, the default controller's initialize and finalize writes are an input; in the second, only its lifecycle calls are recorded.
- HttpControllerBase.Controller.ResponseFlow: the hooks and the routed method are modelled by the calls they make on the response. They cannot change its output type, and their other side effects are not modelled. `getResponse()` is modelled as the response's recorded calls.
- Babel's `Locale.parse` and `Locale.negotiate` are foreign code. Negotiation is a function parameter; parsing is not modelled.
- `get_timezone` and `localization()` (localizationmanager.py lines 37-49) are not modelled. They only wrap foreign objects.
- The instance manager's lock is concurrency and is not modelled.
- InstanceManager.GetFrom: with no name, the model returns the first declared instance. `keys()[0]` raises TypeError on Python 3, and the order of a Python 2 dict is arbitrary.
- The snake-case conversion of driver names is a function parameter.
- InputValidation.Validation.Rule returns a copy of the rule's entries, not the shared rule object, so changes a caller makes to that object are not modelled. The validation rule class is not modelled. `Validator::make`, `hasErrors` and `getErrors` are foreign code; the model stops at the rule strings handed to the validator.
- QueueJob: the value of the default queue name is not modelled. `QueueJob::dispatch` goes through the registry and is not modelled.
- Case mapping is ASCII only; Unicode case mapping is not modelled.
- LogController: the input rules and the outcome of each validator are inputs. `json_decode` failure is not modelled. `registerRoutes` is not modelled. `parse_url`'s host and path are inputs.
- NewRelic transaction naming is computed, but the call into NewRelic is not modelled. Registry side effects are not modelled.
- Application: `getConfigurationPath` (file I/O) is not modelled, nor are `logPageView`, the warehouse flush and `attachExtras`. `getName`, `isLocal`, `isProduction` and `isTesting` are environment reads. The session and cookie bindings and `bindAvailable` are not modelled.
- The response and visitor objects are modelled only as records of the calls made on them.
- AuthMiddleware: the guard and the request format are inputs.
- ControllerBase.CheckRights: the static `Visitor::$requiredRights` is a parameter.
- LoginRequiredController names its parent class without a namespace. It is modelled as extending the rights-checking base controller.
- ControllerBase.CheckRights: `src/Core/Bases/Controllers/BaseController.php` (line 16) imports `Core\Http\Controllers\Login\LoginRequiredController`, while the class is declared in `Core\Controllers\Login`. As written, the `instanceof` exemption would therefore never match. The model assumes it does match, and the login-required controller passes `true`.
- RolesMiddleware.Handle: `src/Core/Auth/Middleware/RolesMiddleware.php` declares `namespace Core\Http\Middleware` (line 14) and does not import `Auth`, so `Auth::getInstance()` (line 40) names `Core\Http\Middleware\Auth`, which is not among the repository's files. As written, `handle` would fail with a missing class. The model assumes it names the authentication singleton (`Core\Auth\Auth`, as `AuthMiddleware.php` imports it), whose visitor and roles decide the outcome.
- UserModel.User.Roles, UserModel.User.HasRole, UserModel.User.HasRight: `src/Core/Models/User.php` is in `namespace LH\Core\Models` (line 14) and throws `new Exception(...)` (line 85) without importing `Exception`, so as written it names `LH\Core\Models\Exception`. The model's `RoleClassNotSet` error stands for the exception the code evidently intends; which class is thrown, or the missing-class error, is not modelled.
- ExceptionHandlers.Abort, Application.AbortFor: the two abort tables throw differently namespaced exception classes. The model gives them one exception kind per code and does not distinguish the namespaces.
- RouteHelper.NormalizeSpec: `prepareController` wraps a scalar `m` or `r` in an array but leaves a scalar `p` as it is (`RouteHelper.php` lines 237-240). The model's parameter patterns are always a list, so a non-array `p` is not modelled.
- Dispatcher.Dispatch: `dispatch` ignores its own HTTP-method and URI arguments and reads the request singleton. The model takes the request as an input.
- Routing.AreParametersValid: the PCRE matcher is a function parameter. The model only builds the pattern string the source passes to it.
- Routing: `class_exists` is membership in a set of registered class names.

## Findings

| source | as written | input that shows it | evidently intended | confidence | as-written member | corrected member |
|---|---|---|---|---|---|---|
| src/Core/Controllers/Login/LoginRequiredController.php:53 | `$email = A && $password = B` assigns the boolean `A && B` to `$email`, so the login receives `true` as the e-mail address | PHP_AUTH_USER `ann@example.com`, PHP_AUTH_PW `secret` | log in with the given e-mail address and password when both are set | high (not executed) | LoginRequired.AsWrittenExample | LoginRequired.LoginAttempt |
| edmunds/localization/localizationmanager.py:143 | `language, = locale.split('_')` is a single-target unpack of a two-part split, and it is also at lines 98, 121 and 154 | any call of `_locale`: the ultimate fallback `en_US` always reaches the unpack and raises ValueError | take the part before `_` as the language backup | high (not executed) | LocalizationManager.ChooseLocaleAsWrittenAlwaysFails | LocalizationManager.ChooseLocaleWithoutSupported |
