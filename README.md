# Strava-III in Dafny

A model of the Strava-III system, a Strava-like sports tracker. The parts modelled are:

- **The Spring server.** User registration and login against an external identity provider, with clock-generated session tokens. Training sessions, and challenges that users create and accept, with each participant's progress towards the challenge objective. Everything is answered as a `ResponseWrapper` (a status code plus a map of named values).
- **The web client.** How it turns a filter into a query URL, flattens error replies, sorts accepted challenges into periods, orders participants by progress and picks the error flag a page shows.
- **The two identity providers.** The Meta line-protocol server and the Google service.

Modelling choices:

- **Entities and state.** The server's entities (`User`, `Challenge`, `TrainingSession`, `UserToken`) are Dafny classes, because Java compares them by identity and the services update them in place. The JPA repositories are small store classes holding a `seq` of rows and an id counter. The JPQL queries are pure functions over snapshots of those rows. The services are classes whose methods are proved against those functions.
- **Nulls and failures.** Java `null` is `Option`. An exception that escapes a service is the `Thrown` outcome. The date is a day number; doubles are exact reals.
- **Outside inputs.** The clock, the identity provider's answers and `LocalDate.toString` are parameters.

## Model

| member | source | states |
|---|---|---|
| Entities.User.constructor | servidor-strava/src/main/java/com/strava/entity/User.java:82-91 | a new user copies every profile field of the DTO except the id, and starts with empty session, challenge, created-challenge and token lists |
| Entities.User.AddSession | servidor-strava/src/main/java/com/strava/entity/User.java:125-130 | a new non-null session is appended once and gets this user as owner; a null or already present session changes nothing; no other list or profile field changes; a duplicate-free list stays duplicate-free |
| Entities.User.RemoveSession | servidor-strava/src/main/java/com/strava/entity/User.java:132-137 | a present session is removed (first occurrence) and loses its owner; an absent or null one changes nothing; everything else stays |
| Entities.User.AddChallenge | servidor-strava/src/main/java/com/strava/entity/User.java:143-147 | a joined challenge is appended once without touching the challenge; nothing else changes |
| Entities.User.RemoveChallenge | servidor-strava/src/main/java/com/strava/entity/User.java:149-153 | a present challenge leaves the joined list; absent or null: no change |
| Entities.User.AddCreatedChallenge | servidor-strava/src/main/java/com/strava/entity/User.java:159-164 | a new created challenge is appended once and gets this user as creator; its columns and participants are untouched |
| Entities.User.RemoveCreatedChallenge | servidor-strava/src/main/java/com/strava/entity/User.java:166-171 | a present created challenge is removed and its creator cleared; absent or null: no change |
| Entities.User.AddToken | servidor-strava/src/main/java/com/strava/entity/User.java:177-182 | a new token is appended once and owned by this user; its string, revoked flag and id are untouched |
| Entities.User.RemoveToken | servidor-strava/src/main/java/com/strava/entity/User.java:184-189 | a present token is removed and loses its owner; absent or null: no change |
| Entities.User.RevokeToken | servidor-strava/src/main/java/com/strava/entity/User.java:191-195 | the token becomes revoked iff it was revoked or is one of this user's tokens; it stays in the list and nothing else about it changes |
| Entities.Challenge.constructor | cliente-strava/src/main/java/com/cliente/entity/Challenge.java:64-71 | the new challenge carries the DTO's name, dates, objective and sport, with no id, no participants and no creator |
| Entities.Challenge.GetUsers | cliente-strava/src/main/java/com/cliente/entity/Challenge.java:96 | returns a fresh copy of the participant list, so changing it cannot change the challenge |
| Entities.Challenge.AddUser | cliente-strava/src/main/java/com/cliente/entity/Challenge.java:99-104 | a new participant is appended once and the challenge joins the user's list too, so both sides are linked; a present or null user changes neither side |
| Entities.Challenge.RemoveUser | cliente-strava/src/main/java/com/cliente/entity/Challenge.java:106-111 | a present participant is removed and the challenge leaves the user's list; on duplicate-free lists neither side mentions the other afterwards |
| Entities.TrainingSession.constructor | cliente-strava/src/main/java/com/cliente/entity/TrainingSession.java:56-62 | the new session carries the DTO's six columns, with no id and no owner |
| Entities.UserToken.constructor | servidor-strava/src/main/java/com/strava/service/UserService.java:99 | a token issued by `loginUser` is live, carries the given string, is owned by the user and has no id yet |
| Lists.RemoveFirst | servidor-strava/src/main/java/com/strava/entity/User.java:132-137 | `List.remove(Object)` removes exactly one copy of a present element and nothing otherwise (length and multiset) |
| Lists.AddIfAbsentSpec | servidor-strava/src/main/java/com/strava/entity/User.java:125-130 | the guarded add keeps a list duplicate-free, contains the element afterwards, adds nothing else and keeps the old prefix |
| Lists.AddIfAbsentIdempotent | servidor-strava/src/main/java/com/strava/entity/User.java:143-147 | adding the same element twice is adding it once |
| Lists.RemoveFirstSpec | servidor-strava/src/main/java/com/strava/entity/User.java:149-153 | on a duplicate-free list, removal leaves exactly the other elements, still duplicate-free |
| Lists.RemoveFirstAbsent | servidor-strava/src/main/java/com/strava/entity/User.java:149-153 | removing an absent element leaves the list unchanged |
| Lists.AddThenRemove | cliente-strava/src/main/java/com/cliente/entity/Challenge.java:99-111 | adding a new element and removing it again restores the original list |
| Ordering.InsertDescSorted | servidor-strava/src/main/java/com/strava/dao/ChallengeDAO.java:24 | inserting into a list sorted by descending key keeps it sorted |
| Ordering.SortDesc | servidor-strava/src/main/java/com/strava/dao/ChallengeDAO.java:24 | the sorted list is a permutation of the rows (same multiset, same length) |
| Ordering.FirstPage | servidor-strava/src/main/java/com/strava/dao/ChallengeDAO.java:25 | `setMaxResults(limit)`: the page is a prefix of the rows of length min(limit, rows) |
| Ordering.SortDescSorted | servidor-strava/src/main/java/com/strava/dao/ChallengeDAO.java:24 | `ORDER BY ... DESC` yields a non-increasing permutation of the rows |
| Ordering.TopPage | servidor-strava/src/main/java/com/strava/dao/ChallengeDAO.java:24-25 | the first page of the sorted rows is sorted, drawn from the rows, of size min(limit, rows), and every row past it has a key no greater than any kept row |
| Ordering.PageKeepsTheTop | servidor-strava/src/main/java/com/strava/dao/ChallengeDAO.java:24-25 | any row left off the page (counting repeats) has a key no greater than every row on the page |
| ChallengeDtos.ChallengeDto.ToMap | servidor-strava/src/main/java/com/strava/dto/ChallengeDTO.java:127-138 | the map has exactly the eight keys id, name, startDate, endDate, objectiveValue, objectiveType, sport, creatorId and never progress |
| ChallengeDtos.SwapDatesIfNecessary | servidor-strava/src/main/java/com/strava/dto/ChallengeDTO.java:91-97 | the result is ordered; ordered or partly null pairs are kept; otherwise the dates become (min, max) |
| ChallengeDtos.SwapIdempotent | servidor-strava/src/main/java/com/strava/dto/ChallengeDTO.java:91-97 | a second swap changes nothing |
| ChallengeDtos.Create | servidor-strava/src/main/java/com/strava/dto/ChallengeDTO.java:61-76 | the JSON creator keeps the six given fields, leaves id, progress and creator null, and stores the same two dates in order |
| ChallengeDtos.OfEntity | servidor-strava/src/main/java/com/strava/dto/ChallengeDTO.java:79-89 | the entity DTO copies id, columns and creator id, has no progress, and holds the entity's two dates in order |
| ChallengeDtos.ToMapRoundTrip | servidor-strava/src/main/java/com/strava/dto/ChallengeDTO.java:127-138 | reading a `toMap` map back gives the DTO without its progress: nothing else is lost |
| DateRange.IsValid | servidor-strava/src/main/java/com/strava/dto/FilterDTO.java:75-80 | `isValidDateRange` holds iff some day lies within both bounds; true when a bound is missing; else start <= end |
| ServerFilter.FilterDto.IsValidDateRange | servidor-strava/src/main/java/com/strava/dto/FilterDTO.java:75-80 | valid iff the window admits a day; always valid when a bound is null |
| ChallengeFilter.ChallengeFilterDto.IsValidDateRange | servidor-strava/src/main/java/com/strava/dto/ChallengeFilterDTO.java:60-65 | valid iff the window admits a day; always valid when a bound is null |
| ChallengeFilter.Default | servidor-strava/src/main/java/com/strava/dto/ChallengeFilterDTO.java:13-23 | a new filter has every field null and a valid range |
| SessionFilter.SessionFilterDto.IsValidDateRange | servidor-strava/src/main/java/com/strava/dto/SessionFilterDTO.java:48-53 | valid iff the window admits a day; always valid when a bound is null |
| SessionFilter.Default | servidor-strava/src/main/java/com/strava/dto/SessionFilterDTO.java:11-18 | a new filter has every field null and a valid range |
| ClientFilter.FilterDto.IsValidDateRange | cliente-strava/src/main/java/com/cliente/dto/FilterDTO.java:74-79 | valid iff the window admits a day; always valid when a bound is null |
| ClientFilter.Empty | cliente-strava/src/main/java/com/cliente/dto/FilterDTO.java:28-30 | the empty constructor leaves every field null, so the range is valid |
| ClientFilter.New | cliente-strava/src/main/java/com/cliente/dto/FilterDTO.java:32-36 | the three-argument constructor sets sport and both dates and leaves the limit null |
| HttpStatus.ResolveOrDefault | servidor-strava/src/main/java/com/strava/dto/ResponseWrapper.java:48-52 | a code Spring knows is kept, any other becomes 500; the result is always a known status |
| ServerResponse.ResponseWrapper.ToResponseEntity | servidor-strava/src/main/java/com/strava/dto/ResponseWrapper.java:48-55 | the entity has a known status (the wrapper's, or 500 when unknown) and exactly the data map as body |
| ServerResponse.Of | servidor-strava/src/main/java/com/strava/dto/ResponseWrapper.java:23-27 | the (code, key, value) wrapper's data map holds exactly that key with that value |
| ClientResponse.ResponseWrapper.ToResponseEntity | cliente-strava/src/main/java/com/cliente/dto/ResponseWrapper.java:44-58 | known status or 500; the body is the data when present, else the message, else "No content available" |
| Outcomes.Message | servidor-strava/src/main/java/com/strava/dto/ResponseWrapper.java:23-27 | a reply with the given status whose data is exactly the one text entry |
| ChallengeDao.JoinRowsOf | servidor-strava/src/main/java/com/strava/dao/ChallengeDAO.java:20-23 | one challenge yields at most one join row per participant, each a copy of that challenge |
| ChallengeDao.JoinWhere | servidor-strava/src/main/java/com/strava/dao/ChallengeDAO.java:20-23 | every join row comes from the table |
| ChallengeDao.FindFilteredSound | servidor-strava/src/main/java/com/strava/dao/ChallengeDAO.java:20-25 | each challenge returned is in the table, has the user among its participants (when given), the sport (when given) and overlapping dates; the page is newest first and at most `limit` long |
| ChallengeDao.FindFilteredComplete | servidor-strava/src/main/java/com/strava/dao/ChallengeDAO.java:20-25 | the page holds min(limit, matches) of the matches, all of them when they fit, and any match cut off starts no later than each challenge on the page |
| ChallengeDao.FindFilteredAsWrittenSound | servidor-strava/src/main/java/com/strava/dao/ChallengeDAO.java:20-25 | the query as written returns only stored challenges that have at least one participant and pass the filters (the user among the participants when given), newest first, at most `limit` rows |
| ChallengeDao.NullFiltersMatchAll | servidor-strava/src/main/java/com/strava/dao/ChallengeDAO.java:20-23 | with every argument null the WHERE clause admits any challenge |
| ChallengeDao.DateTestIsOverlap | servidor-strava/src/main/java/com/strava/dao/ChallengeDAO.java:22-23 | for ordered challenge dates and a valid window, the two date conditions hold iff the challenge and the window share a day |
| ChallengeDao.AsWrittenAgreesForUser | servidor-strava/src/main/java/com/strava/dao/ChallengeDAO.java:20-25 | with a user given and duplicate-free participant lists, the join as written returns the same page as the one-row-per-challenge query |
| ChallengeDao.JoinFilterForUser | servidor-strava/src/main/java/com/strava/dao/ChallengeDAO.java:20-23 | for a given user the filtered join equals the filtered challenge list |
| ChallengeDao.OneRowForUser | servidor-strava/src/main/java/com/strava/dao/ChallengeDAO.java:20-23 | a challenge yields one join row for a participating user whose columns match, none otherwise |
| ChallengeDao.NullUserRowPerParticipant | servidor-strava/src/main/java/com/strava/dao/ChallengeDAO.java:20-23 | with no user filter, a challenge that passes the filters yields exactly one join row per participant, and one that fails yields none |
| ChallengeDao.AsWrittenDuplicatesChallenges | servidor-strava/src/main/java/com/strava/dao/ChallengeDAO.java:20-25 | with no user filter, a challenge with two participants is returned twice by the query as written, once by the corrected query |
| ChallengeDao.FindByCreator | servidor-strava/src/main/java/com/strava/dao/ChallengeDAO.java:27 | exactly the challenges whose creator is the user |
| ChallengeDao.ChallengeStore.constructor | servidor-strava/src/main/java/com/strava/dao/ChallengeDAO.java:18 | the table starts empty and valid |
| ChallengeDao.ChallengeStore.FindById | servidor-strava/src/main/java/com/strava/dao/ChallengeDAO.java:18 | `findById` returns a stored challenge with that id, or none when no stored challenge has it |
| ChallengeDao.ChallengeStore.Find | servidor-strava/src/main/java/com/strava/dao/ChallengeDAO.java:18 | the search over a list finds a member with that id, or none when no member has it |
| ChallengeDao.ChallengeStore.Save | servidor-strava/src/main/java/com/strava/dao/ChallengeDAO.java:18 | a new challenge gets a fresh id and is appended; saving a stored one changes nothing; stored ids never change and stay distinct |
| TrainingSessionDao.FindFilteredSound | servidor-strava/src/main/java/com/strava/dao/TrainingSessionDAO.java:17-18 | each session returned belongs to the user and starts within the window; the page is newest first and at most `limit` long |
| TrainingSessionDao.FindFilteredComplete | servidor-strava/src/main/java/com/strava/dao/TrainingSessionDAO.java:17-18 | the page holds min(limit, matches) of the matches, and any match cut off starts no later than each session on the page |
| TrainingSessionDao.NullBoundsMatchOwner | servidor-strava/src/main/java/com/strava/dao/TrainingSessionDAO.java:17 | with both bounds null a session matches iff it belongs to the user, whatever its sport |
| TrainingSessionDao.NullUserFindsNothing | servidor-strava/src/main/java/com/strava/dao/TrainingSessionDAO.java:17 | `t.user.id = null` holds for no row, so a null user gets an empty page |
| TrainingSessionDao.NoMatchWithoutUser | servidor-strava/src/main/java/com/strava/dao/TrainingSessionDAO.java:17 | no session matches a null user id |
| TrainingSessionDao.SessionStore.constructor | servidor-strava/src/main/java/com/strava/dao/TrainingSessionDAO.java:15 | the table starts empty and valid |
| TrainingSessionDao.SessionStore.FindById | servidor-strava/src/main/java/com/strava/dao/TrainingSessionDAO.java:15 | a stored session with that id, or none when no stored session has it |
| TrainingSessionDao.SessionStore.Find | servidor-strava/src/main/java/com/strava/dao/TrainingSessionDAO.java:15 | the search over a list finds a member with that id, or none when no member has it |
| TrainingSessionDao.SessionStore.Save | servidor-strava/src/main/java/com/strava/dao/TrainingSessionDAO.java:15 | a new session gets a fresh id and is appended; a stored one is kept; its columns and owner are untouched |
| TrainingSessionDao.SessionStore.Delete | servidor-strava/src/main/java/com/strava/dao/TrainingSessionDAO.java:15 | the session is gone from the table, every other session stays and the table stays valid |
| TokenDao.LiveMatches | servidor-strava/src/main/java/com/strava/dao/TokenDAO.java:17-18 | exactly the stored tokens with that string that are not revoked |
| TokenDao.SameEntity | servidor-strava/src/main/java/com/strava/dao/TokenDAO.java:17-22 | Hibernate's single result: no row iff empty; rows that are all one entity give that entity; rows naming two different entities give the non-unique error |
| TokenDao.Single | servidor-strava/src/main/java/com/strava/dao/TokenDAO.java:17-22 | a single-result query: no row iff empty, a unique answer iff exactly one row (that row), otherwise the non-unique error |
| TokenDao.LiveOwners | servidor-strava/src/main/java/com/strava/dao/TokenDAO.java:21-22 | exactly the owners of live matching tokens; an ownerless token contributes no row |
| TokenDao.LiveOwnersAppend | servidor-strava/src/main/java/com/strava/dao/TokenDAO.java:21-22 | a token appended to the table adds its owner at the end iff it is a live match with an owner |
| TokenDao.NoLiveOwner | servidor-strava/src/main/java/com/strava/dao/TokenDAO.java:21-22 | without a live matching token that has an owner, the owner query is empty |
| TokenDao.TokenStore.FindByToken | servidor-strava/src/main/java/com/strava/dao/TokenDAO.java:17-18 | no answer iff every token with that string is revoked; a unique answer iff exactly one live token has that string, and then it is that token; the non-unique error iff several do |
| TokenDao.TokenStore.OneLiveTokenFound | servidor-strava/src/main/java/com/strava/dao/TokenDAO.java:17-18 | in a valid table, the one stored live token with a string is what the lookup returns |
| TokenDao.LiveMatchesNoDup | servidor-strava/src/main/java/com/strava/dao/TokenDAO.java:17-18 | the query over distinct stored tokens returns distinct tokens |
| TokenDao.TokenStore.FindUserByToken | servidor-strava/src/main/java/com/strava/dao/TokenDAO.java:21-22 | Hibernate's single result over the owner rows: no answer iff no live matching token has an owner; when every live owned match has one owner, that owner (several rows naming one user are one result); the non-unique error iff two live matches have different owners |
| TokenDao.TokenStore.AppendedTokenResolves | servidor-strava/src/main/java/com/strava/dao/TokenDAO.java:21-22 | a live owned token appended where every earlier live owned token with its string has the same owner resolves to that owner |
| TokenDao.TokenStore.constructor | servidor-strava/src/main/java/com/strava/dao/TokenDAO.java:14 | the table starts empty and valid |
| TokenDao.TokenStore.Save | servidor-strava/src/main/java/com/strava/dao/TokenDAO.java:14 | a new token gets a fresh id and is appended; its owner, string and revoked flag are untouched |
| TokenDao.RevokedIsNotFound | servidor-strava/src/main/java/com/strava/dao/TokenDAO.java:17-22 | once every token with a string is revoked, neither lookup finds anything |
| UserDao.UserStore.constructor | servidor-strava/src/main/java/com/strava/dao/UserDAO.java:12 | the table starts empty and valid |
| UserDao.UserStore.FindByEmail | servidor-strava/src/main/java/com/strava/dao/UserDAO.java:15 | a stored user with that email, or none iff no stored user has it |
| UserDao.UserStore.FindEmail | servidor-strava/src/main/java/com/strava/dao/UserDAO.java:15 | the search over a list finds a user with that email, or none iff no user has it |
| UserDao.UserStore.FindById | servidor-strava/src/main/java/com/strava/service/UserService.java:155-157 | `getUserById`: a stored user with that id, or none iff no stored user has it |
| UserDao.UserStore.FindId | servidor-strava/src/main/java/com/strava/service/UserService.java:155-157 | the search over a list finds a user with that id, or none iff no user has it |
| UserDao.UserStore.Save | servidor-strava/src/main/java/com/strava/dao/UserDAO.java:12 | a new user with an unused email gets the next id and is appended; emails and ids stay unique |
| TokenServices.GenerateToken | servidor-strava/src/main/java/com/strava/service/TokenService.java:20-22 | the token is a non-empty string of digits that reads back as the clock value, so distinct readings give distinct tokens |
| Text.NatToStringRoundTrip | servidor-strava/src/main/java/com/strava/service/TokenService.java:21 | `String.valueOf` of a non-negative number is all digits and parses back to the number |
| Text.NatToStringDigits | servidor-strava/src/main/java/com/strava/service/TokenService.java:21 | the decimal rendering is non-empty, all digits, with no leading zero |
| Text.IntToStringShape | cliente-strava/src/main/java/com/cliente/service/ServiceProxy.java:154-156 | an integer renders as digits with a '-' exactly when negative |
| TokenServices.GetUserFromToken | servidor-strava/src/main/java/com/strava/service/TokenService.java:25-34 | success gives the owner shared by every live owned token with that string, and such a shared owner is always the answer; `InvalidTokenException` iff no live matching token has an owner; the data layer's error iff two live matches have different owners; nothing else can escape |
| TokenServices.RevokedTokenIsRejected | servidor-strava/src/main/java/com/strava/service/TokenService.java:25-34 | a revoked or never-issued token is rejected with `InvalidTokenException` |
| UserServices.Registration.Profile | servidor-strava/src/main/java/com/strava/service/UserService.java:65 | the user built from a registration has its profile fields, no id, and not the password |
| UserServices.Merge | servidor-strava/src/main/java/com/strava/service/UserService.java:132-149 | each non-null field of the update replaces the stored one, each null one keeps it; id, email and provider never change |
| UserServices.MergeIdempotent | servidor-strava/src/main/java/com/strava/service/UserService.java:132-149 | applying the same update twice equals applying it once |
| UserServices.MergeEmpty | servidor-strava/src/main/java/com/strava/service/UserService.java:132-149 | an update with every field null leaves the profile as it was |
| UserServices.RegisterStatus | servidor-strava/src/main/java/com/strava/service/UserService.java:40-69 | 201 iff the email is new and the provider accepts both email and password; a stored email gives 409 before the provider is asked; a failed email check gives 500 |
| UserServices.UserService.constructor | servidor-strava/src/main/java/com/strava/service/UserService.java:34-37 | the service works on the given, possibly non-empty tables; it is valid when every token's owner is a stored user |
| UserServices.UserService.Register | servidor-strava/src/main/java/com/strava/service/UserService.java:40-69 | status as `RegisterStatus`, each failure with its own message: 409 `EmailTaken`, 500 `EmailCheckFailed`, 404 `EmailUnknown`, 500 `PasswordCheckFailed`, 401 `RegisterRejected`; every failure leaves the table unchanged; 201 appends exactly one fresh user with the registration's profile and returns its id |
| UserServices.UserService.Login | servidor-strava/src/main/java/com/strava/service/UserService.java:72-103 | 400 / 500 / 401 for an unknown email or a failed or negative provider answer, with no change; 200 iff both succeed, appending one fresh live token for the user whose string is the clock reading, which then resolves to that user unless another user's live token holds the same string |
| UserServices.UserService.IssueToken | servidor-strava/src/main/java/com/strava/service/UserService.java:98-100 | one fresh live token for the user is appended; its string resolves to the user unless another user's live token already held it |
| UserServices.UserService.Logout | servidor-strava/src/main/java/com/strava/service/UserService.java:106-119 | no live token: 400 and no change; one live token: only it is revoked, the string no longer resolves, 200; two: the lookup's exception |
| UserServices.UserService.UpdatePhysicalInfo | servidor-strava/src/main/java/com/strava/service/UserService.java:129-153 | the token's user gets `Merge(profile, update)`, no other user changes and no lists change, 200; an unresolvable token escapes with no change |
| UserServices.UserService.Apply | servidor-strava/src/main/java/com/strava/service/UserService.java:132-149 | the conditional setters leave the profile equal to the merged profile and the lists untouched |
| TrainingSessionServices.DtosOf | servidor-strava/src/main/java/com/strava/service/TrainingSessionService.java:76-78 | one DTO per row, in order, carrying the row's columns |
| TrainingSessionServices.WithDefaults | servidor-strava/src/main/java/com/strava/service/TrainingSessionService.java:61-67 | a null limit becomes `Integer.MAX_VALUE`, a null end date becomes today, start date and sport are kept |
| TrainingSessionServices.WithDefaultsIdempotent | servidor-strava/src/main/java/com/strava/service/TrainingSessionService.java:61-67 | filling in the defaults twice changes nothing more |
| TrainingSessionServices.TrainingSessionService.constructor | servidor-strava/src/main/java/com/strava/service/TrainingSessionService.java:28-31 | the service works on the given tables |
| TrainingSessionServices.TrainingSessionService.CreateSession | servidor-strava/src/main/java/com/strava/service/TrainingSessionService.java:34-46 | one fresh session with the DTO's columns, owned by the token's user, is appended and its id returned with 200; an unresolvable token changes nothing |
| TrainingSessionServices.TrainingSessionService.GetUserSessions | servidor-strava/src/main/java/com/strava/service/TrainingSessionService.java:49-81 | the filter gets its defaults; the page is the user's sessions in the window as it arrived, newest first, at most `limit`; a limit below one fails |
| TrainingSessionServices.TrainingSessionService.Owned | servidor-strava/src/main/java/com/strava/service/TrainingSessionService.java:89-92 | a stored session with that id owned by the user, none when missing or owned by another, a failure iff the stored session has no owner |
| TrainingSessionServices.TrainingSessionService.DeleteSession | servidor-strava/src/main/java/com/strava/service/TrainingSessionService.java:84-98 | only an existing session of the token's user leaves the table (200); otherwise 404 or the failure, with no change |
| TrainingSessionServices.TrainingSessionService.UpdateSession | servidor-strava/src/main/java/com/strava/service/TrainingSessionService.java:101-123 | only an existing session of the token's user takes the DTO's columns, keeping id and owner (200); no other session changes |
| TrainingSessionServices.TrainingSessionService.Overwrite | servidor-strava/src/main/java/com/strava/service/TrainingSessionService.java:112-117 | every column but the id takes the DTO's value; the owner is kept |
| ChallengeServices.Progress | servidor-strava/src/main/java/com/strava/service/ChallengeService.java:209-230 | fails iff the objective is zero; otherwise the counted total as a percentage of the objective |
| ChallengeServices.FullProgressIffObjectiveMet | servidor-strava/src/main/java/com/strava/service/ChallengeService.java:226-228 | the progress is 100 iff the counted total equals the objective |
| ChallengeServices.HundredIffEqual | servidor-strava/src/main/java/com/strava/service/ChallengeService.java:228 | total / objective * 100 is 100 iff total equals objective |
| ChallengeServices.TotalSnoc | servidor-strava/src/main/java/com/strava/service/ChallengeService.java:218-224 | the sum over one more session adds its measured value |
| ChallengeServices.UncountedSessionKeepsProgress | servidor-strava/src/main/java/com/strava/service/ChallengeService.java:211-224 | another user's session, or one outside the challenge's dates, does not change the progress |
| ChallengeServices.CountedSessionAddsItsShare | servidor-strava/src/main/java/com/strava/service/ChallengeService.java:211-228 | one more session of the user within the dates, of any sport, adds its measured share of the objective |
| ChallengeServices.ShareAdds | servidor-strava/src/main/java/com/strava/service/ChallengeService.java:228 | percentages of the objective add up |
| ChallengeServices.NoIdNoProgress | servidor-strava/src/main/java/com/strava/service/ChallengeService.java:211-215 | a user without an id has no counted sessions, so progress 0 |
| ChallengeServices.DtosOf | servidor-strava/src/main/java/com/strava/service/ChallengeService.java:78-80 | one entity DTO per row, in order |
| ChallengeServices.ProgressDtos | servidor-strava/src/main/java/com/strava/service/ChallengeService.java:131-140 | one DTO per challenge, in order, each with the user's progress; fails iff some challenge has a zero objective |
| ChallengeServices.AcceptedDtos | servidor-strava/src/main/java/com/strava/service/ChallengeService.java:131-140 | DTOs carry progress exactly when asked for and otherwise equal the plain entity DTOs |
| ChallengeServices.ParticipantProgress | servidor-strava/src/main/java/com/strava/service/ChallengeService.java:155-160 | one entry per participant, in order, with their id, name and progress; fails iff there is a participant and the objective is zero |
| ChallengeServices.ColumnsOf | servidor-strava/src/main/java/com/strava/service/ChallengeService.java:190-191 | the reply's data map has the `toMap` keys and values |
| ChallengeServices.ByIdColumnsRoundTrip | servidor-strava/src/main/java/com/strava/service/ChallengeService.java:190-191 | the by-id reply has exactly the eight `toMap` keys, and the DTO reads back from them |
| ChallengeServices.ChallengeService.constructor | servidor-strava/src/main/java/com/strava/service/ChallengeService.java:37-42 | the service works on the given tables |
| ChallengeServices.ChallengeService.CreateChallenge | servidor-strava/src/main/java/com/strava/service/ChallengeService.java:45-58 | a fresh challenge with the DTO's columns is appended, created by and joined by the token's user (linked on both sides), and its id returned with 200; no other user changes; an unresolvable token changes nothing |
| ChallengeServices.ChallengeService.NewChallengeBy | servidor-strava/src/main/java/com/strava/service/ChallengeService.java:50-52 | the new challenge's creator and only participant is the user, who lists it as created and as joined |
| ChallengeServices.ChallengeService.GetActiveChallenges | servidor-strava/src/main/java/com/strava/service/ChallengeService.java:60-83 | a null limit becomes `Integer.MAX_VALUE`; a limit below one fails; else the page of the join query as written with a null user, one DTO per join row, so a challenge appears once per participant and one without participants not at all |
| ChallengeServices.ChallengeService.AcceptChallenge | servidor-strava/src/main/java/com/strava/service/ChallengeService.java:86-118 | checked in the order unknown (404), ended (400), already joined (409); only when all pass is the user added and linked (200); on every other path no challenge and no user changes |
| ChallengeServices.ChallengeService.Enrol | servidor-strava/src/main/java/com/strava/service/ChallengeService.java:112-115 | the user is appended to the participants and linked on both sides; the table keeps its rows |
| ChallengeServices.ChallengeService.GetAcceptedChallenges | servidor-strava/src/main/java/com/strava/service/ChallengeService.java:120-143 | the page of the join query as written with the user's id, newest first, as DTOs with progress exactly when asked; a zero objective fails. On duplicate-free participant ids it is each challenge the user takes part in, once (`AsWrittenAgreesForUser`) |
| ChallengeServices.ChallengeService.GetChallengeParticipants | servidor-strava/src/main/java/com/strava/service/ChallengeService.java:145-163 | 404 for an unknown challenge; else each participant's progress, or the failure of a zero objective |
| ChallengeServices.ChallengeService.GetCreatedChallenges | servidor-strava/src/main/java/com/strava/service/ChallengeService.java:165-181 | 404 for an unknown user; else the DTOs of exactly the challenges that user created |
| ChallengeServices.ChallengeService.GetChallengeById | servidor-strava/src/main/java/com/strava/service/ChallengeService.java:183-192 | 404 for an unknown id; else the challenge's `toMap` columns |
| ChallengeServices.ChallengeService.IsChallengeAccepted | servidor-strava/src/main/java/com/strava/service/ChallengeService.java:194-207 | the user is looked up before the challenge (404 each); else whether the user is a participant |
| Json.ToText | cliente-strava/src/main/java/com/cliente/dto/ClientErrorResponseDTO.java:16 | a non-null JSON string prints as itself |
| ClientErrors.CopyNested | cliente-strava/src/main/java/com/cliente/dto/ClientErrorResponseDTO.java:14-18 | fails iff some nested value is null; otherwise the same keys, each value as text |
| ClientErrors.New | cliente-strava/src/main/java/com/cliente/dto/ClientErrorResponseDTO.java:9-24 | "errors" wins over "error": a nested map is copied, a non-map gives no entries; "error" alone gives one entry (a null one fails); neither gives an empty map |
| ServiceProxy.Classify | cliente-strava/src/main/java/com/cliente/service/ServiceProxy.java:46-62 | success iff 2xx, client error iff 4xx, unexpected otherwise |
| ServiceProxy.Handle | cliente-strava/src/main/java/com/cliente/service/ServiceProxy.java:42-63 | 2xx wraps the body, 4xx gives the flattened errors (or the flattening's failure), anything else is null |
| ServiceProxy.SetAuthHeader | cliente-strava/src/main/java/com/cliente/service/ServiceProxy.java:70-74 | Authorization is set to the token iff it is non-null; no other header changes |
| ServiceProxy.TrimTerminated | cliente-strava/src/main/java/com/cliente/service/ServiceProxy.java:158-162 | the appended parameters end in '&', and cutting it leaves them joined by single '&'s |
| ServiceProxy.TerminatedSnoc | cliente-strava/src/main/java/com/cliente/service/ServiceProxy.java:145-156 | appending one more `key=value&` extends the builder by exactly that |
| ServiceProxy.AppendParam | cliente-strava/src/main/java/com/cliente/service/ServiceProxy.java:146 | one `append(key).append(value).append("&")` adds one parameter to the builder |
| ServiceProxy.TrimLast | cliente-strava/src/main/java/com/cliente/service/ServiceProxy.java:159-162 | cutting the last character of the URL cuts it from the parameter part |
| ServiceProxy.BuildUrl | cliente-strava/src/main/java/com/cliente/service/ServiceProxy.java:142-162 | the URL is the base URL, the path, '?', and the non-null fields' parameters joined by '&' (the same builder serves challenges at lines 208-228) |
| ServiceProxy.AppendParams | cliente-strava/src/main/java/com/cliente/service/ServiceProxy.java:145-156 | the builder holds the prefix and each present parameter followed by '&', in field order |
| ServiceProxy.ValuesOfAppend | cliente-strava/src/main/java/com/cliente/service/ServiceProxy.java:145-156 | reading a key back from two parameter lists reads it from each |
| ServiceProxy.PieceValues | cliente-strava/src/main/java/com/cliente/service/ServiceProxy.java:145-156 | one conditional append yields its value for its own key and nothing for the other keys |
| ServiceProxy.ParamsPlain | cliente-strava/src/main/java/com/cliente/service/ServiceProxy.java:151-156 | no parameter contains '&': sport names are identifiers and limits are digits |
| ServiceProxy.ParamsValues | cliente-strava/src/main/java/com/cliente/service/ServiceProxy.java:145-156 | reading a key back from the parameter list gives exactly the value of that field when set |
| ServiceProxy.QueryRecoversFilter | cliente-strava/src/main/java/com/cliente/service/ServiceProxy.java:142-162 | splitting the query at '&' gives back each set field's value exactly once under its key, and nothing for null fields |
| ServiceProxy.UrlShape | cliente-strava/src/main/java/com/cliente/service/ServiceProxy.java:158-162 | the URL starts with base URL, path and '?', never ends in '&', and is just that prefix when no field is set |
| ClientController.IsChallengeActive | cliente-strava/src/main/java/com/cliente/controller/ClientController.java:435-436 | active iff start <= today <= end |
| ClientController.PeriodOf | cliente-strava/src/main/java/com/cliente/controller/ClientController.java:362-368 | completed iff the end is past; future iff the start is ahead and the end is not past; active iff today is within the dates, agreeing with `isChallengeActive` |
| ClientController.InPeriod | cliente-strava/src/main/java/com/cliente/controller/ClientController.java:358-369 | a challenge is in a period's list iff it is in the input and has that period |
| ClientController.Bucket | cliente-strava/src/main/java/com/cliente/controller/ClientController.java:358-369 | the loop's three lists are exactly the input's challenges of each period, in input order |
| ClientController.BucketsPartition | cliente-strava/src/main/java/com/cliente/controller/ClientController.java:358-369 | the three lists together are a permutation of the input: none lost, none duplicated |
| ClientController.ShowMyChallenges | cliente-strava/src/main/java/com/cliente/controller/ClientController.java:344-384 | no token redirects to login; a failed fetch shows no lists; else the lists partition the challenges by period, each list keeping the input order |
| ClientController.SortParticipants | cliente-strava/src/main/java/com/cliente/controller/ClientController.java:456-467 | the participants are rearranged in place into non-increasing progress (a non-number counts as 0) |
| ClientController.Insert | cliente-strava/src/main/java/com/cliente/controller/ClientController.java:456-467 | one insertion step extends the sorted prefix by one and keeps the elements |
| ClientController.RegisterErrorFlag | cliente-strava/src/main/java/com/cliente/controller/ClientController.java:80-95 | invalid credentials iff the message mentions "not registered" or "credentials"; already registered iff not that and it mentions "already registered"; unexpected otherwise or without "error" |
| ClientController.LoginErrorFlag | cliente-strava/src/main/java/com/cliente/controller/ClientController.java:139-154 | invalid credentials iff the message mentions "credentials"; not registered iff not that and it mentions "must be registered"; unexpected otherwise |
| ClientController.LoginPageFlag | cliente-strava/src/main/java/com/cliente/controller/ClientController.java:129-159 | no flag iff success; a client error raises its message's flag; null or anything else is unexpected |
| ClientController.RegisterPageFlag | cliente-strava/src/main/java/com/cliente/controller/ClientController.java:62-100 | no flag iff both the registration and the automatic login succeed; a client error raises its message's flag; otherwise unexpected |
| ClientController.EmailTakenText | servidor-strava/src/main/java/com/strava/service/UserService.java:42 | the taken-email message around the phrase "already registered" |
| ClientController.EmailTakenLacks | servidor-strava/src/main/java/com/strava/service/UserService.java:42 | the taken-email message has no 'n' and no 'c' |
| ClientController.EmailUnknownText | servidor-strava/src/main/java/com/strava/service/UserService.java:53 | the unknown-email message begins "Email is not registered" |
| ClientController.NotRegisteredText | servidor-strava/src/main/java/com/strava/service/UserService.java:80 | the not-registered message around "must be registered", with no 'c' |
| ClientController.RejectionsText | servidor-strava/src/main/java/com/strava/service/UserService.java:62 | the two rejection messages around "credentials" |
| ClientController.EmailTakenMentions | servidor-strava/src/main/java/com/strava/service/UserService.java:42 | the taken-email message contains "already registered" and neither "not registered" nor "credentials" |
| ClientController.EmailUnknownMentions | servidor-strava/src/main/java/com/strava/service/UserService.java:53 | the unknown-email message contains "not registered" |
| ClientController.NotRegisteredMentions | servidor-strava/src/main/java/com/strava/service/UserService.java:80 | the not-registered message contains "must be registered" and not "credentials" |
| ClientController.RejectionsMention | servidor-strava/src/main/java/com/strava/service/UserService.java:94 | both rejection messages contain "credentials" |
| ClientController.RegisterMessagesRaiseIntendedFlags | cliente-strava/src/main/java/com/cliente/controller/ClientController.java:82-90 | the server's taken-email reply raises "already registered"; its unknown-email and rejected-password replies raise "invalid credentials" |
| ClientController.LoginMessagesRaiseIntendedFlags | cliente-strava/src/main/java/com/cliente/controller/ClientController.java:141-149 | the server's unknown-user reply raises "not registered"; its rejected-password reply raises "invalid credentials" |
| MetaAuth.Seeds | meta/src/es/deusto/MetaAuthServer/MetaAuthServer.java:20-24 | exactly the three test users with their passwords |
| MetaAuth.Respond | meta/src/es/deusto/MetaAuthServer/MetaAuthServer.java:46-90 | the map changes only on a REGISTER_SUCCESS reply |
| MetaAuth.MetaAuthServer.constructor | meta/src/es/deusto/MetaAuthServer/MetaAuthServer.java:20-24 | the map starts as the three seeded users |
| MetaAuth.MetaAuthServer.HandleClient | meta/src/es/deusto/MetaAuthServer/MetaAuthServer.java:39-94 | the reply and the new map are those of `Respond` on the old map |
| MetaAuth.SplitRequestLine | meta/src/es/deusto/MetaAuthServer/MetaAuthServer.java:46 | a request line of words splits back into its words |
| MetaAuth.RequestParts | meta/src/es/deusto/MetaAuthServer/MetaAuthServer.java:46-47 | two- and three-word requests split into command and arguments |
| MetaAuth.CommandsAreWords | meta/src/es/deusto/MetaAuthServer/MetaAuthServer.java:50-74 | the three command names contain no space |
| MetaAuth.RegisterThenValidate | meta/src/es/deusto/MetaAuthServer/MetaAuthServer.java:50-83 | REGISTER of a new email succeeds; afterwards VALIDATE_EMAIL accepts it and VALIDATE_PASSWORD accepts exactly the registered password |
| MetaAuth.ValidateAnswers | meta/src/es/deusto/MetaAuthServer/MetaAuthServer.java:68-84 | on any map, VALIDATE_EMAIL answers EMAIL_VALID iff the email is stored, else EMAIL_INVALID; VALIDATE_PASSWORD answers PASSWORD_VALID iff the email is stored with that password, else PASSWORD_INVALID; neither changes the map |
| MetaAuth.RegisterTakenKeepsPassword | meta/src/es/deusto/MetaAuthServer/MetaAuthServer.java:58-60 | REGISTER of a known email fails and keeps the stored password |
| MetaAuth.ShortRegisterFails | meta/src/es/deusto/MetaAuthServer/MetaAuthServer.java:51-55 | REGISTER with fewer than two arguments fails and changes nothing |
| MetaAuth.OtherCommandsUnknown | meta/src/es/deusto/MetaAuthServer/MetaAuthServer.java:86-89 | any other command is answered UNKNOWN_COMMAND and changes nothing |
| MetaAuth.SeedsValidate | meta/src/es/deusto/MetaAuthServer/MetaAuthServer.java:74-83 | each seeded user validates with their own password |
| GoogleAuth.NewLoginDto | google/src/main/java/com/google/dto/LoginDTO.java:17-32 | a null or empty email fails first, then a null or empty password; it succeeds iff both are non-empty, keeping them |
| GoogleAuth.BlankCredentialsAccepted | google/src/main/java/com/google/dto/LoginDTO.java:22-28 | the check is emptiness, so any non-empty whitespace-only email and password are accepted as given |
| GoogleAuth.FindByEmail | google/src/main/java/com/google/dao/GoogleUserRepository.java:12 | a stored user with that email, or none iff no stored user has it |
| GoogleAuth.Validate | google/src/main/java/com/google/service/GoogleAuthService.java:22-32 | 200 with `valid: true` iff a stored user has that email and password; otherwise 401 with the error |
| GoogleAuth.VerifyEmail | google/src/main/java/com/google/service/GoogleAuthService.java:58-60 | true iff a stored user has that email |
| GoogleAuth.RegisteredUserValidates | google/src/main/java/com/google/service/GoogleAuthService.java:34-60 | after adding a user under a new email, emails stay unique, the email verifies, and it validates with that password and no other |
| GoogleAuth.GoogleAuthService.constructor | google/src/main/java/com/google/service/GoogleAuthService.java:18-20 | the service starts with an empty valid table |
| GoogleAuth.GoogleAuthService.RegisterUser | google/src/main/java/com/google/service/GoogleAuthService.java:34-56 | a taken email gives 400 and no change; otherwise exactly one row with that email and password is appended (201), after which the email verifies and the credentials validate |

## Left out

- I/O is not modelled: HTTP execution, Jackson (de)serialisation, sockets, threads, logging, Thymeleaf models and session attributes. Requests and replies are values.
- The clock (`System.currentTimeMillis`, `LocalDate.now`) is a parameter.
- The identity provider calls are parameters of `Register` and `Login`; `None` stands for a failed call.
- `LocalDate.toString` is the `dateText` parameter of the URL builder; its ISO output is assumed to contain no '&' (`DatesPlain`).
- `LocalDate.parse` of challenge dates on the client is not modelled: accepted challenges arrive with parsed dates.
- Dates are day numbers, because only comparisons are made on them.
- ChallengeServices.Progress: computed exactly over reals. The `BigDecimal` rounding to two decimals and IEEE double arithmetic are not modelled. A zero objective, which gives an infinite or NaN double that `BigDecimal.valueOf` rejects, is the `NumberFormat` failure.
- TrainingSessionServices.TrainingSessionService.GetUserSessions: the source passes five arguments (including the sport) to the four-argument `findFilteredSessions`. The model calls the query as declared, without a sport condition. The same holds for the progress calculation in `ChallengeService`, so sessions of every sport count.
- TrainingSessionServices.TrainingSessionService.GetUserSessions: the default end date is written into the filter object only. The query still receives the original null end date, and the model keeps that behaviour.
- UserServices.Registration.Profile: the registration line builds the user with `new User(userDTO)` from a `RegistrationDTO`. `User` has only `User()` and `User(UserDTO)`, and `RegistrationDTO` is not a `UserDTO`, so the line does not compile as given. The model reads it as the field copy that `User(UserDTO)` does, without the password.
- The challenge services call `findFilteredChallenges` as written (the join without `DISTINCT`, see Findings). The corrected query and its properties stand beside it and are not used by the services.
- `getUserInfoFromToken`, `UserDTO` and the REST controllers (facades) are not part of this model.
- The client's other controllers and service proxies are not part of this model.
- Bean-validation annotations (`@NotNull` and similar) become `requires` on the constructors and services that rely on them (`Challenge(ChallengeDTO)`, `CreateChallenge`).
- The server's `Challenge`, `TrainingSession` and `UserToken` entity files are not part of this model. The client's `Challenge` and `TrainingSession` entities, which have the same fields and bookkeeping, stand for them. `UserToken`'s constructor is modelled from its use in `loginUser`.
- UserServices.UserService.Apply: the source calls `userDAO.save(user)` after the setters. Saving a stored, managed entity changes nothing, so the call is not modelled.
- ClientController.SortParticipants: the sort is proved ordered and a permutation. The stability of `List.sort` (equal progress keeps the input order) is not stated.
- MetaAuth.MetaAuthServer.HandleClient: a null request line (client disconnected) throws `NullPointerException` before any reply. It is not modelled; the request is always a string.
- MetaAuth.MetaAuthServer.HandleClient: concurrent handlers on the shared static map are not modelled. Each call is atomic.
- MetaAuth.MetaAuthServer.HandleClient: indexing past the split request throws, and the model gives `NoReply`.
- ServiceProxy.Handle: an I/O error, and a body that is not a JSON object, are not modelled.
- ClientErrors.New: a `toString` of a non-string value is the `render` parameter, because Jackson chooses those values.

## Findings

| source | as written | input that shows it | evidently intended | confidence | as-written member | corrected member |
|---|---|---|---|---|---|---|
| servidor-strava/src/main/java/com/strava/dao/ChallengeDAO.java:20-25 | `SELECT c FROM Challenge c JOIN c.users u` without `DISTINCT` returns a challenge once per participant that passes the WHERE clause. `getActiveChallenges` passes a null user, so a challenge with two participants is listed twice and fills two places of the page | one challenge with participants 7 and 8, all filters null, limit 10: two result rows | each matching challenge listed once | not executed | ChallengeDao.AsWrittenDuplicatesChallenges | ChallengeDao.FindFilteredSound |
