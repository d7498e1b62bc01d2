# OpenShock gateway and API core, modelled in Dafny

This project models three pieces of sequential logic from the OpenShock back end and proves properties of them.

- **The device lifetime registry** of the live-control gateway (`LifetimeManager`, `lifetime_manager.dfy`). A table maps each device id to the lifetime object of that device's current connection. Four operations use it:
  - registering a connection disposes the lifetime already filed for the device, then creates a new lifetime, initialises it and files it;
  - removal is by key;
  - `IsConnected` tests whether the key is present;
  - `ReceiveFrame` routes a control frame and answers `Success`, `DeviceNotFound` or `ShockerNotFound`.

  The static `ConcurrentDictionary` becomes a field `managers: map<Guid, DeviceLifetime>` of a registry object. The device lifetime class is not part of this model, so it appears as an abstract class with three things: the device id, a state (`Created`, `Active`, `Disposed`) and the set of shocker ids loaded at initialisation. It accepts a frame only while it is active and only for a known shocker. A ghost log `steps` records the registration steps in order. With it, the contract of `AddDeviceConnection` states two things: the old lifetime is disposed before the new one is constructed, and the table is written only after initialisation. Five client methods replay connect, reconnect, failed-initialisation and removal scenarios against the contracts alone.
- **The ISO 3166-1 alpha-2 country-code validator** (`Geo`, `geo.dfy`). It runs six checks in order:
  - the value is not null;
  - the value is a string;
  - the string has length 2;
  - both characters are ASCII uppercase letters;
  - the string parses to a country code;
  - the code is in the country table.

  Each failure has its own message. A string is its sequence of UTF-16 code units, as in .NET, so a character outside the Basic Multilingual Plane has length 2 and fails the uppercase check. The parser and the country table are not part of this model, so they are parameters: a function `Utf16String -> Option<Alpha2CountryCode>` and a set of codes. The chain is also stated independently, as a list of separately defined checks plus "the first check that fails". A lemma proves that the validator equals that definition.
- **Login-session authentication** (`Authentication`, `authentication.dfy`). Sources are tried in a fixed order, and a value that is absent or empty is skipped:
  1. the `openShockSession` cookie (session scheme);
  2. the `OpenShockSession` header (session scheme);
  3. the legacy `ShockLinkToken` header (token scheme);
  4. the `OpenShockToken` header (token scheme).

  A token is accepted when it matches a row of the API-token table whose expiry is absent or not before today. An unknown session key fails with `SessionInvalid`. `Fail` records its reason. The challenge step falls back to `UnknownError` and sets the response status from the recorded failure. The precedence, the token rule and the session rule are pure functions, each with its own lemmas. The handler is a class whose methods update its fields: the recorded failure, the current client, the request's `User` item and the response status. The methods are proved against those functions.

`common.dfy` holds `Option` and `Guid`, which all three modules share.

Behaviour of the registry, as the registry's own C# code has it and as the model follows it:

- Removal is by key, not by instance. Removing with a superseded controller evicts the newer lifetime filed under the same id (`StaleRemoveScenario`).
- The old lifetime is disposed, and the disposal awaited, before the new one is created.
- When the new lifetime's initialisation throws, the registry does not write the table. In the model, disposing the old lifetime does not touch the registry, so a device that already had a lifetime then stays filed under the old, disposed lifetime: it still counts as connected, and every frame for it gives `ShockerNotFound` (`FailedInitScenario`). This is a consequence of the abstraction. If disposing the old lifetime tears down its controller, which calls the removal, the C# code deletes the entry during registration and the device is then not connected.
- The registry's removal only drops the table entry. Tearing down the removed lifetime belongs to the device controller, which calls the removal while it is being disposed, and is outside this model. So in the model a removed lifetime keeps its state, and a device removed and then reconnected has two lifetimes in the `Active` state, of which only the second is filed (`RemoveThenAddScenario`). This is a consequence of the abstraction, not a claim about the C# code.

## Model

| member | source | states |
|---|---|---|
| `LifetimeManager.DeviceLifetimeManager.constructor` | LiveControlGateway/LifetimeManager/DeviceLifetimeManager.cs:14 | the registry starts empty, with no registration steps taken |
| `LifetimeManager.DeviceLifetime.constructor` | LiveControlGateway/LifetimeManager/DeviceLifetimeManager.cs:33 | a new lifetime carries its controller's device id, is not yet initialised and knows no shockers |
| `LifetimeManager.DeviceLifetime.InitAsync` | LiveControlGateway/LifetimeManager/DeviceLifetimeManager.cs:34 | initialisation succeeds exactly when the load succeeds; the lifetime then becomes active with the loaded shocker set, and on failure it stays uninitialised |
| `LifetimeManager.DeviceLifetime.DisposeAsync` | LiveControlGateway/LifetimeManager/DeviceLifetimeManager.cs:29 | after disposal the lifetime is disposed and accepts no frame for any shocker; a repeated call changes nothing |
| `LifetimeManager.DeviceLifetime.ReceiveFrame` | LiveControlGateway/LifetimeManager/DeviceLifetimeManager.cs:67 | a lifetime reports delivery exactly when it is active and the shocker is one of its known shockers |
| `LifetimeManager.DeviceLifetimeManager.Lookup` | LiveControlGateway/LifetimeManager/DeviceLifetimeManager.cs:66 | the lookup finds a lifetime exactly when the device is a key, and that lifetime is the one filed under it; in a valid table it is the lifetime of that device |
| `LifetimeManager.RegistrationSteps` | LiveControlGateway/LifetimeManager/DeviceLifetimeManager.cs:26-35 | a registration first disposes the old lifetime (if there is one), then constructs the new one; when installed, initialisation is the second-to-last step and the table write is the last |
| `LifetimeManager.DeviceLifetimeManager.AddDeviceConnection` | LiveControlGateway/LifetimeManager/DeviceLifetimeManager.cs:23-37 | afterwards the device's entry is exactly the new, active lifetime; any previous lifetime is disposed first; every other device's entry is unchanged; the steps happen in the order dispose, construct, initialise, write; in the model, a failed initialisation leaves the table unchanged |
| `LifetimeManager.DeviceLifetimeManager.RemoveDeviceConnection` | LiveControlGateway/LifetimeManager/DeviceLifetimeManager.cs:43-46 | afterwards the device's key is absent, whichever lifetime was filed under it, and every other entry is unchanged |
| `LifetimeManager.DeviceLifetimeManager.IsConnected` | LiveControlGateway/LifetimeManager/DeviceLifetimeManager.cs:53 | a device is connected exactly when it is a key of the table |
| `LifetimeManager.DeviceLifetimeManager.ReceiveFrame` | LiveControlGateway/LifetimeManager/DeviceLifetimeManager.cs:63-68 | an unknown device gives DeviceNotFound; a known device gives Success exactly when its lifetime accepts the shocker, and ShockerNotFound otherwise; the table is not modified |
| `LifetimeManager.DispatchScenario` | LiveControlGateway/LifetimeManager/DeviceLifetimeManager.cs:63-68 | after a device connects with shockers {s1, s2}: a frame for s1 succeeds, a frame for another shocker gives ShockerNotFound, and a frame for another device gives DeviceNotFound |
| `LifetimeManager.ReconnectScenario` | LiveControlGateway/LifetimeManager/DeviceLifetimeManager.cs:23-37 | after a reconnect the device stays connected, the first lifetime is disposed, and frames are judged by the second lifetime's shocker set |
| `LifetimeManager.FailedInitScenario` | LiveControlGateway/LifetimeManager/DeviceLifetimeManager.cs:26-35 | a failed first registration leaves the device unconnected; in the model, where disposal does not touch the registry, a failed re-registration leaves it filed under its disposed old lifetime, which rejects frames |
| `LifetimeManager.StaleRemoveScenario` | LiveControlGateway/LifetimeManager/DeviceLifetimeManager.cs:43-46 | removing with the controller of a superseded connection disconnects the device |
| `LifetimeManager.RemoveThenAddScenario` | LiveControlGateway/LifetimeManager/DeviceLifetimeManager.cs:43-46 | removal drops only the table entry and leaves the removed lifetime's state to its controller's own teardown, which is outside the model; so within the model a device removed and then reconnected has two distinct lifetimes in the Active state |
| `Geo.Message` | Common/Geo/Alpha2CountryCodeAttribute.cs:12-27 | each failure carries the source's message text: "Value is null", "Input type must be string", "Input string must be exactly 2 characters long", "Characters must be uppercase", "Failed to create Alpha2CountryCode", "Country does not exist in mapping" |
| `Geo.IsValid` | Common/Geo/Alpha2CountryCodeAttribute.cs:9-30 | every accepted value is a string of exactly two UTF-16 code units, both uppercase ASCII letters, that parses to a code in the country table |
| `Geo.FirstFailing` | Common/Geo/Alpha2CountryCodeAttribute.cs:11-29 | the first failing check of a list is one of the list's checks |
| `Geo.FirstFailingNone` | Common/Geo/Alpha2CountryCodeAttribute.cs:11-29 | no check fails exactly when every check of the list passes |
| `Geo.FirstFailingAt` | Common/Geo/Alpha2CountryCodeAttribute.cs:11-29 | among distinct checks, the one at position k is reported exactly when it fails and every earlier check passes |
| `Geo.IsValidReportsFirstFailure` | Common/Geo/Alpha2CountryCodeAttribute.cs:11-29 | the validator's result is the error of the first check, in the chain's order, that the value fails, and Success when none fails |
| `Geo.ErrorIsFirstFailingCheck` | Common/Geo/Alpha2CountryCodeAttribute.cs:11-29 | the k-th error of the chain is reported exactly when its check fails and all earlier checks pass, so later checks never decide |
| `Geo.AcceptedIffEveryCheckPasses` | Common/Geo/Alpha2CountryCodeAttribute.cs:23-29 | a value is accepted exactly when it passes all six checks |
| `Geo.NullRejectedFirst` | Common/Geo/Alpha2CountryCodeAttribute.cs:11-12 | null is rejected with "Value is null", whatever the parser and the table |
| `Geo.MalformedNeverReachesParser` | Common/Geo/Alpha2CountryCodeAttribute.cs:14-21 | a value that is not a string of two uppercase ASCII letters is rejected by one of the first four checks, and the result depends neither on the parser nor on the table |
| `Geo.SurrogatePairIsRejectedAsNotUppercase` | Common/Geo/Alpha2CountryCodeAttribute.cs:17-21 | a single character outside the Basic Multilingual Plane is two UTF-16 code units, passes the length check and is rejected with "Characters must be uppercase" |
| `Geo.MessagesDistinct` | Common/Geo/Alpha2CountryCodeAttribute.cs:12-27 | each failure carries its own message |
| `Authentication.SelectCredential` | ServicesCommon/Authentication/LoginSessionAuthentication.cs:46-59 | whenever a credential is selected, its value is non-empty |
| `Authentication.FirstUsableAt` | ServicesCommon/Authentication/LoginSessionAuthentication.cs:46-57 | in a list of sources, the source at position k decides when it is usable and every earlier one is absent or empty |
| `Authentication.FirstUsableNone` | ServicesCommon/Authentication/LoginSessionAuthentication.cs:46-59 | nothing is selected from a list of sources exactly when every source is absent or empty |
| `Authentication.SelectCredentialIsFirstUsable` | ServicesCommon/Authentication/LoginSessionAuthentication.cs:46-59 | the handler's chain selects the first usable source of the precedence order cookie, session header, legacy token header, token header |
| `Authentication.SelectedSourceIsFirstUsable` | ServicesCommon/Authentication/LoginSessionAuthentication.cs:46-57 | the k-th source in precedence order is selected, with its scheme and value, when it is usable and all earlier ones are absent or empty |
| `Authentication.CookieTakesPrecedence` | ServicesCommon/Authentication/LoginSessionAuthentication.cs:46-47 | a non-empty session cookie selects session authentication with the cookie's value, whatever the headers hold |
| `Authentication.NoCredentialIffAllEmpty` | ServicesCommon/Authentication/LoginSessionAuthentication.cs:59 | no credential is selected exactly when all four sources are absent or empty |
| `Authentication.EmptySourceIsSkipped` | ServicesCommon/Authentication/LoginSessionAuthentication.cs:46-57 | a source that is present but empty gives the same selection as an absent one |
| `Authentication.TokenUsable` | ServicesCommon/Authentication/LoginSessionAuthentication.cs:64-65 | a token row is usable when its token equals the presented one and its expiry is absent or not before today |
| `Authentication.TokenUsableUntilExpiry` | ServicesCommon/Authentication/LoginSessionAuthentication.cs:64-65 | for a matching row, usability on a day implies usability on every earlier day; a row without expiry is always usable; a row whose last valid day is before today is not |
| `Authentication.Matching` | ServicesCommon/Authentication/LoginSessionAuthentication.cs:64-65 | the token query selects exactly the rows whose token matches and whose expiry is absent or not before today |
| `Authentication.SingleOrDefault` | ServicesCommon/Authentication/LoginSessionAuthentication.cs:64 | the single-or-default query gives nothing for no rows, the row for one row, and an exception otherwise |
| `Authentication.TokenAuthOutcome` | ServicesCommon/Authentication/LoginSessionAuthentication.cs:62-87 | a token authenticates only the user of a matching, unexpired row, together with that row's id; it fails with TokenInvalid exactly when no row is usable |
| `Authentication.ExpiredTokenRejected` | ServicesCommon/Authentication/LoginSessionAuthentication.cs:64-66 | a token whose matching rows have all expired fails with TokenInvalid |
| `Authentication.MatchingSingle` | ServicesCommon/Authentication/LoginSessionAuthentication.cs:64-65 | when exactly one row is usable, the query selects exactly that row |
| `Authentication.MatchingEmpty` | ServicesCommon/Authentication/LoginSessionAuthentication.cs:64-65 | when no row is usable, the query selects nothing |
| `Authentication.MatchingAtLeastTwo` | ServicesCommon/Authentication/LoginSessionAuthentication.cs:64-65 | two usable rows make the query select at least two rows |
| `Authentication.UniqueUsableTokenAccepted` | ServicesCommon/Authentication/LoginSessionAuthentication.cs:64-71 | a token with exactly one usable row authenticates that row's user with that row's id |
| `Authentication.DuplicateUsableTokenFaults` | ServicesCommon/Authentication/LoginSessionAuthentication.cs:64-65 | two usable rows for one token make the query throw |
| `Authentication.SessionAuthOutcome` | ServicesCommon/Authentication/LoginSessionAuthentication.cs:89-113 | an unknown session key fails with SessionInvalid, and only then; a known session authenticates its user without an API token exactly when that user exists, and otherwise the user query throws |
| `Authentication.Authenticate` | ServicesCommon/Authentication/LoginSessionAuthentication.cs:44-60 | authentication fails with HeaderMissingOrInvalid exactly when no credential source is usable |
| `Authentication.LoginSessionAuthentication.constructor` | ServicesCommon/Authentication/LoginSessionAuthentication.cs:26 | a new handler has recorded no failure and has no client, no request user item and no response status |
| `Authentication.LoginSessionAuthentication.Fail` | ServicesCommon/Authentication/LoginSessionAuthentication.cs:115-119 | the handler records the reason it fails with, and the result is that failure |
| `Authentication.LoginSessionAuthentication.TokenAuth` | ServicesCommon/Authentication/LoginSessionAuthentication.cs:62-87 | the handler's result is the token rule's outcome; on success it sets the current client and the request's user item to the token's user, and on failure it records TokenInvalid |
| `Authentication.LoginSessionAuthentication.SessionAuth` | ServicesCommon/Authentication/LoginSessionAuthentication.cs:89-113 | the handler's result is the session rule's outcome; on success it sets the current client and the request's user item to the session's user, and on failure it records SessionInvalid |
| `Authentication.LoginSessionAuthentication.HandleAuthenticateAsync` | ServicesCommon/Authentication/LoginSessionAuthentication.cs:44-60 | the result is the precedence-selected credential checked by its scheme's rule; a failure is recorded and a success sets the client |
| `Authentication.LoginSessionAuthentication.HandleChallengeAsync` | ServicesCommon/Authentication/LoginSessionAuthentication.cs:122-128 | the recorded failure is kept, or becomes UnknownError when none was recorded, and the response status is that failure's status |
| `Authentication.ChallengeAfterAuthenticate` | ServicesCommon/Authentication/LoginSessionAuthentication.cs:115-125 | a challenge after authentication answers with the status of the failure authentication recorded, or of UnknownError when it recorded none |

## Left out

- Concurrency: the `ConcurrentDictionary` is a plain map, and each registry operation is one atomic step. Interleavings of concurrent connects, disconnects and dispatches are not modelled.
- async/await, `CancellationToken` plumbing and logging calls are left out; they carry no state this model observes.
- The device lifetime is not part of this model. Its class here is abstract. In the model a lifetime accepts frames only while it is active, so a disposed lifetime rejects every frame; this rule is a modelling choice. How the lifetime tears itself down when its controller is disposed is not modelled either. Transport delivery of an accepted frame is not modelled.
- `DeviceLifetime.DisposeAsync` is abstract and has no effect on the registry. The C# code logs this disposal as disposing the old device controller, and the removal is documented as being called on dispose of the device controller. If that chain runs, the old entry is removed during registration, before the new lifetime is initialised, so a failed re-registration leaves the device not connected. The model does not capture this.
- `InitAsync`'s database query is replaced by its result: `registered` is the set of shockers loaded for the device, and `None` stands for a load that throws.
- The control type and the intensity of a frame are passed through unchanged. The control-type enumeration is not part of this model, so it appears as a number.
- The API-token table, the users table and the Redis session store are parameters: a sequence of token rows, a set of user ids and a map from session key to session. The current date is a parameter `today`, given as a day number.
- A header is modelled by its value as one string. How a header with several values is joined into that string is left out.
- Claims, authentication tickets, permissions, `AddContext` and the JSON problem response are ASP.NET framework calls and are left out. So is the failure message of `AuthenticateResult.Fail`.
- The definitions of the four authentication failures are not part of this model, so their HTTP statuses are a parameter `statusOf`.
- An exception escaping a store query becomes the outcome `Faulted`. This covers a session whose user is missing and a token with several usable rows. The unwinding of the exception itself is not modelled.
- `Alpha2CountryCode.TryParseAndValidate` and `CountryInfo.CodeDictionary` are not part of this model. They are parameters. The `$"Failed to create {nameof(Alpha2CountryCode)}"` message is written with its interpolation resolved.
- The HTTP controllers (shocker creation, sign-up, share-link deletion, pair codes), both Gravatar helpers, the share-code request type and the device-controller base class are not part of this model. They are thin request handlers, a hash library call, a plain data type and dependency-injection plumbing.
