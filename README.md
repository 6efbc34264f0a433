# Event-discovery client state and navigation guard, in Dafny

This project models the client-side state and navigation layer of a small
event-discovery web application:

- the **events store** (`events.dfy`, module `Events`): an ordered list of event
  records and the current user's RSVP dictionary. `addEvent`, `updateEvent`,
  `deleteEvent` and `rsvpToEvent` change them in place. `getEventById`, the
  `filter` queries and `getEventStats` read them;
- the **auth store** (`auth.dfy`, module `Auth`): a two-field session (`user`,
  `isAuthenticated`) with mock `login`, `signup` and `logout` and the derived
  `isAdmin` flag;
- the **route table and navigation guard** (`router.dfy`, module `Router`): the
  six routes with their `requiresAuth` / `requiresAdmin` flags, and the
  `beforeEach` decision to proceed, redirect to `/auth` or redirect to `/`.

`options.dfy` holds the `Option` type shared by the three modules.

The two stores are classes whose fields the methods overwrite, as the source
does. Each mutator's postcondition ties the new state to a pure function of the
old state. Lookups and filters are pure functions over the list, with contracts
about their results. Lemmas relate the two sides:
- `updateEvent` and `deleteEvent` work by `findIndex` and then an indexed write
  or a splice. They are proved equal to recursive "first match" definitions
  (`UpdateFirst`, `DeleteFirst`).
- The attendee total is computed with a left `reduce`. It is proved equal to the
  plain sum.

Event dates are their parsed values (`EventDate`): an instant on an ordered
time line, or `Unparsable` for a string that does not parse to a date. As with
an invalid JavaScript date, an unparsable date compares false with every
instant. The clock (`new Date()`, `Date.now()`) is a parameter.

Three behaviours of the code that the proofs make explicit:
- `getPastEvents` is the complement of `getUpcomingEvents` only when every date
  parses. `PartitionNeedsParsedDates` proves that the two counts add up to the
  list length exactly in that case.
- A second `deleteEvent` of the same id changes nothing exactly when the id
  occurred at most once. `DeleteTwice` proves both directions.
- `getEventStats` reads the clock twice, once for each count. The model takes
  two instants, and the upcoming/past partition of the stats is proved when the
  two instants are equal (`StatsAgreeWithList`).

## Model

| member | source | states |
|---|---|---|
| `Events.NewEvent` | src/stores/events.js:435-441 | the stored record has attendees 0 and createdBy 'admin' whatever the input says; a caller-supplied id wins over the timestamp id; every other field is the input's |
| `Events.Merge` | src/stores/events.js:449 | the merged record carries every field of the stored record overridden by the fields the update gives, and equals the stored record exactly when the update only gives values it already has |
| `Events.MergeFieldwise` | src/stores/events.js:449 | merging an empty update leaves a record unchanged; an update of the title alone changes the title and nothing else |
| `Events.MergeCompose` | src/stores/events.js:449 | merging the same update twice equals merging it once; two updates in turn equal one update in which the later fields win |
| `Events.FindIndex` | src/stores/events.js:447 | the position of the first record with the id, every earlier record having another id; -1 exactly when no record has the id |
| `Events.GetEventById` | src/stores/events.js:464-466 | absent exactly when no record has the id; otherwise a record of the list carrying that id |
| `Events.GetEventByIdIsFirst` | src/stores/events.js:464-466 | the record found is the one at the first matching position, so `find` and `findIndex` agree |
| `Events.AppendedIsFound` | src/stores/events.js:435-444 | an appended record whose id no earlier record has is what a lookup of that id returns |
| `Events.UpdateFirst` | src/stores/events.js:446-451 | updating keeps the list length |
| `Events.UpdateFirstAt` | src/stores/events.js:446-451 | the findIndex-then-assign of updateEvent equals replacing the first match by its merge, and leaves the list alone when no record matches |
| `Events.UpdateChangesOnlyFirstMatch` | src/stores/events.js:446-451 | on a present id, the first matching position holds the merged record and every other position is unchanged |
| `Events.UpdateMissingIsNoop` | src/stores/events.js:447-448 | an update of an id no record has leaves the list exactly as it was |
| `Events.DeleteFirst` | src/stores/events.js:453-458 | deleting shortens the list by one exactly when the id is present |
| `Events.DeleteFirstMultiset` | src/stores/events.js:453-458 | deleting a present id takes out one copy of its first matching record and nothing else; deleting a missing id takes out nothing |
| `Events.DeleteFirstCount` | src/stores/events.js:453-458 | deleting a present id removes exactly one of its occurrences |
| `Events.DeleteFirstAt` | src/stores/events.js:453-458 | the findIndex-then-splice of deleteEvent removes the first match and keeps the records before and after it in order |
| `Events.DeleteMissingIsNoop` | src/stores/events.js:454-455 | a delete of an id no record has leaves the list exactly as it was |
| `Events.DeleteTwice` | src/stores/events.js:453-458 | a second delete of the same id changes nothing if and only if the id occurred at most once |
| `Events.Select` | src/stores/events.js:468-487 | a filter returns no more records than the list holds |
| `Events.SelectMembers` | src/stores/events.js:468-487 | a filter keeps exactly the records that meet its condition, each no more often than the list holds it |
| `Events.SelectAppend` | src/stores/events.js:468-487 | filtering distributes over concatenation, so the kept records stay in list order |
| `Events.SelectAll` | src/stores/events.js:468-487 | a filter whose condition every record meets returns the list unchanged |
| `Events.GetEventsByDateRange` | src/stores/events.js:468-473 | a record is returned exactly when its date parses and lies between the bounds, both included |
| `Events.GetUpcomingEvents` | src/stores/events.js:475-478 | a record is returned exactly when its date parses and is at or after now |
| `Events.GetPastEvents` | src/stores/events.js:480-483 | a record is returned exactly when its date parses and is before now |
| `Events.GetEventsByCategory` | src/stores/events.js:485-487 | a record is returned exactly when its category equals the argument |
| `Events.SelectComplement` | src/stores/events.js:475-483 | two conditions of which every record meets exactly one split the list: their filters together hold every record exactly once |
| `Events.UpcomingPastPartition` | src/stores/events.js:475-483 | for one instant and parsed dates, upcoming and past are disjoint and together hold every record exactly once |
| `Events.PartitionNeedsParsedDates` | src/stores/events.js:475-483 | the upcoming and past counts never exceed the list length, and equal it if and only if every date parses |
| `Events.GetUserRSVP` | src/stores/events.js:489-491 | present exactly when an entry exists and is not the empty (falsy) string, and then it is the stored status |
| `Events.RsvpThenGet` | src/stores/events.js:460-462 | after an RSVP, reading that event gives the written status (absent if falsy); every other event reads as before |
| `Events.SumAttendeesAppend` | src/stores/events.js:497 | the attendee sum of two lists joined is the sum of their sums |
| `Events.ReduceAttendees` | src/stores/events.js:497 | the left `reduce` over the attendees from a start value equals that value plus the attendee sum |
| `Events.GetEventStats` | src/stores/events.js:493-505 | total is the list length, totalAttendees the attendee sum, and upcoming and past the lengths of the two queries |
| `Events.StatsAgreeWithList` | src/stores/events.js:493-505 | with one instant for both counts and parsed dates, upcoming plus past equals total |
| `Events.AddEventStats` | src/stores/events.js:435-444 | adding an event raises the total by one and leaves the attendee total unchanged |
| `Events.DeleteEventStats` | src/stores/events.js:453-458 | deleting a present id lowers the total by one and the attendee total by the removed record's attendees |
| `Events.EventsStore.constructor` | src/stores/events.js:430-433 | the store starts with the seed records and the RSVPs {1: 'attending', 3: 'interested'} |
| `Events.EventsStore.AddEvent` | src/stores/events.js:435-444 | appends exactly the built record at the end, returns it, and leaves the earlier records and the RSVPs unchanged |
| `Events.EventsStore.UpdateEvent` | src/stores/events.js:446-451 | the new list is the old one with its first matching record merged; the RSVPs are unchanged |
| `Events.EventsStore.DeleteEvent` | src/stores/events.js:453-458 | the new list is the old one without its first matching record; the RSVPs are unchanged |
| `Events.EventsStore.RsvpToEvent` | src/stores/events.js:460-462 | the RSVP entry for the id becomes the status whether or not an event has that id; no other entry and no record changes |
| `Auth.AccountUser` | src/stores/auth.js:12-35 | exactly the two hard-coded (email, password) pairs yield a user, whose email is the one given and whose role is admin exactly for the admin address |
| `Auth.AccountRoles` | src/stores/auth.js:14-31 | the admin pair, and only it, yields an admin; the regular pair yields a user who is not an admin |
| `Auth.AuthStore.constructor` | src/stores/auth.js:5-6 | the session starts logged out, with no user, and meets the session invariant |
| `Auth.AuthStore.Login` | src/stores/auth.js:12-35 | an account pair replaces the user, logs in and succeeds; any other pair fails with 'Invalid credentials' and leaves the session, logged in or not, unchanged; the session invariant is preserved |
| `Auth.AuthStore.Signup` | src/stores/auth.js:37-47 | always succeeds, installs a user with the given name, email and role (default 'user'), logs in, and is an admin exactly when the role is 'admin' |
| `Auth.AuthStore.Logout` | src/stores/auth.js:49-52 | clears the user and the logged-in flag whatever the previous session, so a second logout changes nothing; not an admin afterwards |
| `Auth.IsAdminUser` | src/stores/auth.js:8-10 | no user is never an admin, and a present user is one exactly when the role is 'admin' |
| `Auth.AuthStore.IsAdmin` | src/stores/auth.js:8-10 | the store's computed flag holds only for a present user with the admin role, and under the session invariant only when logged in |
| `Auth.AdminIsAuthenticated` | src/stores/auth.js:8-10 | under the session invariant, an admin is logged in |
| `Router.RouteTable` | src/router/index.js:12-47 | the table holds six routes (the constants `MapRoute` … `DashboardRoute` in `Routes`) with distinct paths; exactly '/settings', '/create-event' and '/dashboard' require login, exactly the last two require an admin, so no route requires an admin without login |
| `Router.FindRoute` | src/router/index.js:12-47 | a lookup returns a route of the table with exactly that path, or nothing when no route has it |
| `Router.Guard` | src/router/index.js:55-65 | the guard run against the auth store proceeds exactly when the session meets the target's flags; under the session invariant an admin-only target is only reached by a logged-in user with the admin role |
| `Router.BeforeEach` | src/router/index.js:55-65 | proceeds exactly when every flag of the target is met; redirects to '/auth' exactly when login is required and missing; otherwise redirects to '/' exactly when admin is required and missing |
| `Router.RedirectTargetRoutes` | src/router/index.js:13-22 | the redirect paths '/' and '/auth' resolve to the map and login routes, which carry no flags |
| `Router.Destination` | src/router/index.js:55-65 | a navigation ends at its target when the guard lets it through, otherwise at an unflagged redirect route that the guard, run again, lets through, so a redirect never leads to a second one |
| `Router.LoggedOutGoesToLogin` | src/router/index.js:58-59 | a visitor who is not logged in is sent to '/auth' from every guarded route, '/create-event' and '/dashboard' included, whatever the admin flag says |
| `Router.LoggedInAccess` | src/router/index.js:60-64 | a logged-in user reaches '/settings' whatever the role; '/create-event' and '/dashboard' let an admin through and send anyone else to '/' |
| `Router.UnguardedRoutesProceed` | src/router/index.js:13-22 | '/', '/auth' and '/event/:id' let every session through |
| `Router.AdminPassesEveryRoute` | src/router/index.js:55-65 | under the session invariant, an admin passes the guard on every route of the table |
| `Router.AdminRoutesNeedLogin` | src/router/index.js:58-61 | under the session invariant, passing an admin-only route implies being logged in |
| `Router.DashboardAfterLogin` | src/router/index.js:41-65 | from a fresh session, after login, '/dashboard' lets the admin pair through, sends the regular pair to '/' and any other pair to '/auth' |
| `Router.VisitAfterLogout` | src/router/index.js:58-63 | after logout, every route that requires login redirects to '/auth' and the others proceed unless they are admin-only |

## Left out

- Pinia and Vue reactivity (`defineStore`, `ref`, `computed`): the stores are plain classes with fields, and `isAdmin` is a predicate recomputed on each read.
- The session invariant is not required by the auth methods, because the store's refs are writable from outside. `Login` preserves it when it held, and `Signup` and `Logout` establish it.
- vue-router itself: `createRouter`, `createWebHistory`, the production base path at src/router/index.js:50, the view components, and `props: true`. The guard is given the target route's flags and the session and returns its decision instead of calling `next`.
- Which route record a visited path resolves to is left to vue-router and not modelled: its pattern matching ('/event/5' to '/event/:id') and its non-strict, case-insensitive matching ('/dashboard/' and '/Dashboard' to the dashboard route, which the guard then checks). `FindRoute` is an exact lookup, used only to resolve the two redirect targets '/' and '/auth'.
- Date parsing and the wall clock: an event's `date` string is its parsed value, `time` is carried but never compared, and "now" and `Date.now()` are parameters.
- Events.GetEventsByDateRange: its bounds are instants. An invalid `Date` passed as a bound, which would match nothing, is not modelled.
- The 25 seed event records are data, not logic, so the store's constructor takes the seed list as a parameter.
- Location coordinates are carried as `real` and never computed with. JavaScript's floating-point numbers are not modelled, so the attendee sum is an exact integer sum.
- RSVP keys are integers. JavaScript turns object keys into strings, which this model does not capture. Statuses are strings, and only the empty string is falsy.
- General object spread: an event is a fixed record and an update is a record of optional fields. A field set explicitly to `undefined` in an update is not distinguished from a field left out.
- Id uniqueness is not enforced by the source, so it is not assumed. `AppendedIsFound` and `DeleteTwice` state what depends on it.
- Shared records and outside writes in the events store: `addEvent` returns the very object it pushed, `getEventById` and the three `filter` queries return stored records, and the store exposes its `events` and `userRSVPs` refs. A caller's write through any of these changes the store. The model keeps records as values in `seq` and `map` fields, so it does not capture this aliasing or any change to the list or the RSVP map made outside the store's own operations.
- Password hashing, sessions that persist, and real identity checks do not exist in the source.
