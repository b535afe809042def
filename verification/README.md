# Donation app core in Dafny

A model of the server side of a Laravel donation application, with proofs about it:

- **Donation intake.** This covers the JSON API (`DonationController`) and the browser form (`POST /donate`). Both use one validation rule list. The `Donation` model keeps only its whitelisted attributes and reads `amount` through a two-decimal cast.
- **Donation listing.** The listing returns every stored row once, newest first.
- **Currency service.** Exchange rates are cached in one slot for a window of minutes. A hard-coded table stands in when the provider fails. Conversion goes through the base currency and is rounded to cents. There is also a formatted rate list with currency symbols.
- **Admin login and logout.** These cover the session changes they make, the `admin` middleware and the browser routes.

Modules, one per concern:

- `Decimal`: rounding to two decimals, half away from zero.
- `Request`: input values. Email syntax and numeric parsing are parameters.
- `Validation`: the framework validator as the rule lists use it, and the donation rules.
- `Responses`: rendered pages and redirects with flash, errors and old input.
- `DonationModel`, `DonationController`, `CurrencyService`: the model, the controller and the service.
- `Session`: the framework session.
- `AdminAuth`, `IsAdmin`, `WebRoutes`: the controller, the middleware and the routes.

State that changes in place is a class:

- the donations table (`DonationController.DonationTable`);
- the service with its clock and cache slot (`CurrencyService.Service`);
- the session (`Session.Session`).

Behaviour of the code worth noting:

- `currency` is only checked as a string of at most three characters. It is not checked against a set of known codes.
- `show`, `update` and `destroy` are empty actions, and no route reaches them: the API routes wire only `index` and `store`. Were they routed, the framework would turn their `null` return into a 200 response with an empty body, which is what the model states.
- A fallback snapshot is cached for the full window, like a real one.

## Model

| member | source | states |
|---|---|---|
| Decimal.Round2 | app/Services/CurrencyService.php:88 | `round(x, 2)`: the result has at most two decimals, lies within half a cent of `x`, is non-negative when `x` is, and an exact half cent goes away from zero |
| Decimal.Round2Keeps | app/Models/Donation.php:17-19 | rounding a value that already has two decimals leaves it unchanged |
| Decimal.Round2Monotone | app/Services/CurrencyService.php:88 | rounding preserves order |
| Decimal.Round2AtLeast | app/Models/Donation.php:17-19 | a value at least a two-decimal bound still rounds to at least that bound |
| Validation.Rejecting | app/Http/Controllers/DonationController.php:30-36 | the rules reported for a field are exactly those of its list that reject the value, so none are reported iff all pass |
| Validation.Validate | app/Http/Controllers/DonationController.php:30-38 | the error map is keyed by exactly the fields with a failing rule, each with its failing rules |
| Validation.Messages | app/Http/Controllers/DonationController.php:38-42 | the error bag has the same fields as the failures, with one message per failed rule |
| Validation.RequiredTextMeaning | app/Http/Controllers/DonationController.php:31-32 | `required\|string\|max:255` and `required\|email\|max:255` pass iff the value is a non-blank string of at most 255 characters (and an email for the second) |
| Validation.AmountMeaning | app/Http/Controllers/DonationController.php:33 | `required\|numeric\|min:0.01` passes iff the amount is filled, numeric and at least 0.01 |
| Validation.OptionalTextMeaning | app/Http/Controllers/DonationController.php:34-35 | `nullable\|string\|max:n` passes iff the field is absent, null, blank, or a string of at most n characters |
| Validation.DonationFieldMeaning | app/Http/Controllers/DonationController.php:30-36 | each donation field fails its rules iff its direct field condition is false |
| Validation.DonationErrorKeys | app/Http/Controllers/DonationController.php:38-42 | the error keys are exactly the donation fields whose condition fails |
| Validation.DonationRulesMeaning | app/Http/Controllers/DonationController.php:30-38 | validation passes iff all five field conditions hold |
| Validation.AnyShortCurrencyPasses | app/Http/Controllers/DonationController.php:34 | any currency string of at most three characters passes, known to the rate service or not |
| DonationModel.Fillable | app/Models/Donation.php:9-15 | mass assignment keeps exactly the input keys on the whitelist, with their submitted values |
| DonationModel.UnlistedKeysDropped | app/Models/Donation.php:9-15 | `id`, `created_at`, `is_admin` and every other key off the whitelist never reach a row |
| DonationModel.FillableIdempotent | app/Models/Donation.php:9-15 | filtering an already filtered input changes nothing |
| DonationModel.RulesSeeOnlyFillable | app/Http/Controllers/DonationController.php:30-45 | the verdict on the whole input equals the verdict on the attributes that are stored |
| DonationModel.AmountOf | app/Models/Donation.php:17-19 | the amount read back through `decimal:2` is the stored number rounded to two decimals, or none when the amount is not numeric |
| DonationModel.AcceptedAmountIsWholeCents | app/Models/Donation.php:17-19 | an accepted donation's amount reads back as the rounded submitted amount, with two decimals and at least 0.01 |
| DonationController.DonationTable.Create | app/Http/Controllers/DonationController.php:45 | one row is appended with the next identifier, the given time and the fillable attributes; identifiers stay increasing |
| DonationController.InsertByTimeKeepsOrder | app/Http/Controllers/DonationController.php:16 | inserting a row into a newest-first list keeps it newest-first and adds exactly that row |
| DonationController.NewestFirstIsOrderedPermutation | app/Http/Controllers/DonationController.php:16 | `latest()->get()` is a permutation of the stored rows, ordered by creation time, newest first |
| DonationController.LatestRowListedFirst | app/Http/Controllers/DonationController.php:16 | a row created no earlier than all others heads the listing |
| DonationController.Index | app/Http/Controllers/DonationController.php:14-22 | `success` is true, `count` equals the number of rows listed and stored, and the rows are all stored rows newest first |
| DonationController.Store | app/Http/Controllers/DonationController.php:28-52 | invalid input gives 422 with the errors and stores nothing; valid input stores exactly one row and answers 201 with it; success iff the field conditions hold |
| DonationController.Show | app/Http/Controllers/DonationController.php:57-60 | an unrouted empty action: the empty 200 response its null return would become, with the table unchanged |
| DonationController.Update | app/Http/Controllers/DonationController.php:65-68 | an unrouted empty action: the empty 200 response its null return would become, with the table unchanged |
| DonationController.Destroy | app/Http/Controllers/DonationController.php:73-76 | an unrouted empty action: the empty 200 response its null return would become, with the table unchanged |
| CurrencyService.FallbackRates | app/Services/CurrencyService.php:94-108 | the fallback is unsuccessful, flagged `fallback`, based on USD, stamped now, with exactly USD, EUR, GBP and INR |
| CurrencyService.FetchSnapshot | app/Services/CurrencyService.php:35-63 | a 2xx answer gives a successful snapshot of the body's `data` (empty if absent) in the configured base; any other status or a thrown error gives the fallback |
| CurrencyService.Convert | app/Services/CurrencyService.php:70-89 | same currency returns the amount; an unsuccessful snapshot returns it unconverted; division by a zero rate is the only error; a cross-rate result has two decimals |
| CurrencyService.ConvertThroughBase | app/Services/CurrencyService.php:82-88 | a successful conversion is `(amount / rate(from)) * rate(to)` rounded to two decimals |
| CurrencyService.ConvertWithinHalfCent | app/Services/CurrencyService.php:86-88 | a converted amount is within half a cent of the exact cross-rate value |
| CurrencyService.FallbackNeverConverts | app/Services/CurrencyService.php:78-80 | while the fallback table is in effect every amount comes back unconverted |
| CurrencyService.MissingRateCountsAsOne | app/Services/CurrencyService.php:82-83 | a currency missing from the snapshot is treated as having rate 1 on either side |
| CurrencyService.ThroughBaseMonotone | app/Services/CurrencyService.php:86-88 | with positive rates the cross-rate value preserves order |
| CurrencyService.ConvertMonotone | app/Services/CurrencyService.php:70-89 | with positive rates a larger amount never converts to a smaller one |
| CurrencyService.CurrencySymbol | app/Services/CurrencyService.php:132-141 | the four known codes map to their one-character symbols; any other code is its own symbol |
| CurrencyService.FormatRates | app/Services/CurrencyService.php:117-124 | one formatted entry per rate entry, with its code, its value and its symbol |
| CurrencyService.Service.constructor | app/Services/CurrencyService.php:19-25 | the base currency and window read from configuration; the service starts against a cold cache store with no requests made |
| CurrencyService.Service.GetExchangeRates | app/Services/CurrencyService.php:30-65 | a fresh cached snapshot is returned without a request; otherwise exactly one fetch is made and its result, fallback included, is cached for the window |
| CurrencyService.Service.ConvertAmount | app/Services/CurrencyService.php:70-89 | the result is `Convert` of the snapshot a read would yield; converting a currency into itself leaves the cache and request count unchanged; otherwise the cache changes as one read changes it |
| CurrencyService.Service.GetFormattedRates | app/Services/CurrencyService.php:113-127 | the formatted list of the snapshot a read would yield; the cache and request count change as one read changes them |
| CurrencyService.ReadTwiceWithinWindow | app/Services/CurrencyService.php:34 | two reads less than a window apart make one request and return the same snapshot |
| Session.Session.Migrate | app/Http/Controllers/AdminAuthController.php:40-41 | a fresh session identifier; user and token unchanged |
| Session.Session.RegenerateToken | app/Http/Controllers/AdminAuthController.php:59 | a fresh CSRF token; user and identifier unchanged |
| Session.Session.Flush | app/Http/Controllers/AdminAuthController.php:58 | no user and no token remain |
| AdminAuth.FindByEmail | app/Http/Controllers/AdminAuthController.php:36 | the first user with the email, or none when no user has it |
| AdminAuth.CurrentUser | app/Http/Controllers/AdminAuthController.php:18 | a user is signed in iff the session holds the identifier of an existing user |
| AdminAuth.ShowLogin | app/Http/Controllers/AdminAuthController.php:16-23 | redirect to the dashboard iff an admin is signed in, otherwise render the login page |
| AdminAuth.LoginRulesMeaning | app/Http/Controllers/AdminAuthController.php:30-33 | the login rules pass iff email and password are both non-blank strings |
| AdminAuth.LoginDecision | app/Http/Controllers/AdminAuthController.php:28-49 | invalid input iff a field is missing or blank; acceptance only for an existing admin with that email whose password checks |
| AdminAuth.LoginAcceptsOnlyAdmins | app/Http/Controllers/AdminAuthController.php:36-39 | with unique emails, login accepts iff some admin has that email and a matching password |
| AdminAuth.EveryFailedCheckRejects | app/Http/Controllers/AdminAuthController.php:39-48 | an unknown email, a non-admin user and a wrong password each give the same rejection |
| AdminAuth.LoginResponse | app/Http/Controllers/AdminAuthController.php:43-48 | every answer is a redirect that never flashes the password; a rejection goes back with the credentials error and at most the email |
| AdminAuth.RejectionsIndistinguishable | app/Http/Controllers/AdminAuthController.php:46-48 | two rejected attempts with the same email get identical responses, whatever the users and passwords |
| AdminAuth.Login | app/Http/Controllers/AdminAuthController.php:28-49 | an accepted login signs the user in under a new session identifier and CSRF token; any other outcome leaves the session as it was |
| AdminAuth.Logout | app/Http/Controllers/AdminAuthController.php:54-62 | no user remains; new session identifier and token; redirect to the login page with the success flash |
| IsAdmin.Gate | app/Http/Middleware/IsAdmin.php:16-29 | guest iff sent to login; signed-in non-admin iff sent home; admin iff passed on |
| IsAdmin.Handle | app/Http/Middleware/IsAdmin.php:16-29 | a guest is redirected to `admin.login` and a non-admin to `/`, each with its error flash; an admin gets the downstream response |
| IsAdmin.RefusalIgnoresHandler | app/Http/Middleware/IsAdmin.php:19-26 | a refused request's response is an error redirect independent of the protected handler |
| WebRoutes.HandleGet | routes/web.php:9-45 | the public pages render; only the dashboard is behind the middleware; other routes render or go to the dashboard |
| WebRoutes.DashboardOnlyForAdmins | routes/web.php:41-45 | the dashboard renders iff an admin is signed in |
| WebRoutes.RedirectsSettleInOneHop | routes/web.php:36-45 | every redirect a GET route answers names a GET route that renders for the same user, so there is no redirect loop |
| WebRoutes.AcceptedLoginOpensDashboard | app/Http/Controllers/AdminAuthController.php:39-43 | after an accepted login the redirect goes to the dashboard, which renders for that user |
| WebRoutes.LoggedOutIsSentToLogin | app/Http/Controllers/AdminAuthController.php:54-62 | with no user signed in, the dashboard sends to the login page, which renders |
| WebRoutes.PostDonate | routes/web.php:17-33 | invalid input goes back with the errors and all the input, storing nothing; valid input stores one row and goes back with the thank-you flash; success iff the field conditions hold |

## Left out

- HTTP, JSON and logging: the provider call is a parameter (`HttpResult`). Log lines, the API key and URL, and the JSON encoding and key order of responses are not modelled.
- Cache internals: the one-slot cache stands in for the cache store. Concurrent requests, eviction and the cache key's other users are not modelled.
- CurrencyService.Service: here the cache slot belongs to one Service object, while the application shares its cache store across every service instance and every request (a new instance is built per request). The model captures one long-lived service reading one store.
- CurrencyService.FormatRates: provider entries are assumed to carry a `value` key, possibly null. An entry without that key makes `getFormattedRates` fail with an undefined-key error, which the model does not distinguish from a null value.
- Time is whole minutes on an integer clock. The ISO 8601 timestamp format is not modelled.
- Decimal.Round2: exact real arithmetic. PHP's floating point and `round`'s pre-rounding of binary representation errors are not modelled.
- Email syntax, `is_numeric` and the password hash check are parameters. So every property holds whatever they decide.
- Validation.Size: the size of a value that is neither a string, a number under `numeric`, nor an array (a boolean, say) is left undefined, and `max`/`min` then pass. The framework's full type juggling is not modelled.
- The database's case-insensitive email comparison (collation) is not modelled. Emails compare exactly.
- Listing ties: SQL leaves the order of rows with equal `created_at` unspecified. The model puts the later insert first.
- Row defaults set by migrations, timestamps other than `created_at`, and `updated_at` are not part of this model.
- Global middleware (string trimming, empty strings to null, CSRF verification) is not modelled. The session's CSRF token is modelled only as a value that is replaced.
- Flash data lives for one request. Aging of flash data is not modelled.
- Session identifiers and tokens come from a counter standing in for randomness. The model shows they are new, not that they are unpredictable.
- `Auth::logout`'s cycling of the remember-me token is not modelled.
- The React pages, the generated route helpers, the API route file and the browser tests are not part of this model.
