# Raffle creator: the main screen's list and state logic

This project models the main screen of the raffle creator, an Android app for
creating raffles and keeping participant lists. The screen (`MainActivity`)
holds an in-memory list of raffles and persists it through a string key-value
repository. It reads the stored participant list from the same repository and,
on removal, writes it back. It reacts to seven events:

- start-up, which hydrates the list from the repository;
- a tap on a raffle, which opens that raffle's participant screen;
- the "+" button (`addRaffle`), which resets the exit counter and shows the
  name dialog;
- "Add" in the name dialog, which appends a raffle, saves the list and opens
  the new raffle's participant screen;
- "Yes" in the removal dialog, which removes a raffle, cascades the removal
  to the raffle's stored participants, and saves both lists as needed;
- pausing, which saves the list;
- back presses, counted down from 2: the first warns, the second finishes.

Modules, one per component:

- `Domain` (`domain.dfy`): the `Raffle` and `Participant` records.
  `RemoveAt` is `ArrayList.removeAt`. `RemoveAll` is the in-place
  `removeAll { p -> p.raffleId == id }` together with the flag it returns.
  The lemmas say what the filter keeps, that it keeps order, and that cascade
  removal preserves "every participant refers to an existing raffle".
- `Storage` (`storage.dfy`): the repository as a `map<string, string>` keyed by
  `raffle_name_key` and `participant_key`. The codecs `Raffle.fromObjects` /
  `toObjects` and `Participant.fromObjects` / `toObjects` are a record of four
  uninterpreted functions. A missing key loads as the empty list.
- `Events` (`events.dfy`): the externally visible effects. These are writes,
  the exit warning, the finish request, and opening a raffle's participant screen.
- `ExitCounter` (`exit_counter.dfy`): the back-press counter. It is a 32-bit
  Kotlin `Int`, so its decrement wraps around at the smallest value.
- `MainScreen` (`main_screen.dfy`): the class `MainActivity`. Its fields are
  `raffles`, `store`, `exitCounter`, the codec, and a ghost `log` of effects.
  Each callback is a method whose postcondition gives the whole new state.

The store writes of the removal callback are specified by the functions
`RemovalWrites` and `StoreAfterRemoval`; `StoreAfterRemovalAppliesWrites`
proves that the second is the first applied in order. The lemmas `RemovalWritesSpec` and
`RemovalPersists` state what those writes mean.

The model follows the code in two places where a reader might expect otherwise:

- `populateRaffleList` appends the decoded list to the in-memory one
  (`addAll`). It does not replace it. Hydration gives exactly the stored list
  only because `onCreate` calls it once, on the freshly created empty list.
  Calling it twice would duplicate the raffles, so reloading is not idempotent.
- The code does not establish that the codecs round-trip. The model never
  assumes it. The two lemmas that need it (`SavedListReloads`,
  `RemovalPersists`) take it as an explicit hypothesis.

## Model

| member | source | states |
|---|---|---|
| Domain.RemoveAt | app/src/main/java/co/za/chester/rafflecreator/rafflecreator/MainActivity.kt:76 | removing at a valid position shortens the list by one; the elements before it stay in place, the ones after it shift down by one keeping their order, and only the removed element is missing from the multiset |
| Domain.RemoveAll | app/src/main/java/co/za/chester/rafflecreator/rafflecreator/MainActivity.kt:74-75 | no kept participant belongs to the removed raffle; the returned flag is true exactly when some loaded participant belonged to it; when false the list is unchanged, when true it is strictly shorter |
| Domain.RemoveAllKeepsOthers | app/src/main/java/co/za/chester/rafflecreator/rafflecreator/MainActivity.kt:75 | the kept participants are exactly those of other raffles, each with its original multiplicity |
| Domain.RemoveAllConcat | app/src/main/java/co/za/chester/rafflecreator/rafflecreator/MainActivity.kt:75 | filtering a concatenation is the concatenation of the filtered parts (and the flags combine by "or"), so the kept participants keep their original order |
| Domain.RemoveAllSingle | app/src/main/java/co/za/chester/rafflecreator/rafflecreator/MainActivity.kt:75 | a single participant is kept exactly when it belongs to another raffle, and the flag reports its removal |
| Domain.CascadeKeepsReferences | app/src/main/java/co/za/chester/rafflecreator/rafflecreator/MainActivity.kt:74-76 | if every participant referred to an existing raffle before the removal, every surviving participant refers to a surviving raffle (no identifier uniqueness needed) |
| Storage.Read | app/src/main/java/co/za/chester/rafflecreator/rafflecreator/MainActivity.kt:68 | reading a key gives nothing exactly when the key was never written, and otherwise the stored string |
| Storage.Load | app/src/main/java/co/za/chester/rafflecreator/rafflecreator/MainActivity.kt:68-73 | a missing key loads as the empty list; a present key loads as the decoded stored string (also used at lines 100-105) |
| Storage.LoadAfterWrite | app/src/main/java/co/za/chester/rafflecreator/rafflecreator/MainActivity.kt:68-80 | loading a key after a write decodes the written value for that key and is unaffected for every other key |
| ExitCounter.Presses | app/src/main/java/co/za/chester/rafflecreator/rafflecreator/MainActivity.kt:113-118 | n back presses have at most n effects, each of them the exit warning or the finish request |
| ExitCounter.Decrement | app/src/main/java/co/za/chester/rafflecreator/rafflecreator/MainActivity.kt:114 | the decremented counter is one less than before modulo 2^32 and stays a 32-bit value |
| ExitCounter.BackPressEvents | app/src/main/java/co/za/chester/rafflecreator/rafflecreator/MainActivity.kt:115-118 | a press shows the warning if and only if the counter became 1, requests the finish if and only if it became 0, has no effect for any other value, and has at most one effect |
| ExitCounter.PressesSnoc | app/src/main/java/co/za/chester/rafflecreator/rafflecreator/MainActivity.kt:113-118 | one more press decrements the counter that n presses left and appends exactly that press's effects to theirs |
| ExitCounter.QuietAfterFinish | app/src/main/java/co/za/chester/rafflecreator/rafflecreator/MainActivity.kt:113-118 | from a counter at most 0, presses only count down and have no effect until the counter would wrap around |
| ExitCounter.PressesFromReset | app/src/main/java/co/za/chester/rafflecreator/rafflecreator/MainActivity.kt:109-118 | from the reset value 2, after n presses the counter is 2 - n and the effects are the warning, then the finish request, and nothing more until the counter would wrap around |
| MainScreen.RemovalWritesSpec | app/src/main/java/co/za/chester/rafflecreator/rafflecreator/MainActivity.kt:75-80 | the removal makes exactly one write (the shortened raffle list) when no stored participant matched the removed raffle, and exactly two otherwise: first the participant list without the removed raffle's participants, then the shortened raffle list; no other key is written |
| MainScreen.StoreAfterRemovalAppliesWrites | app/src/main/java/co/za/chester/rafflecreator/rafflecreator/MainActivity.kt:77-80 | the store after removal equals the old store with the removal's logged writes applied in the order they were made |
| MainScreen.RemovalPersists | app/src/main/java/co/za/chester/rafflecreator/rafflecreator/MainActivity.kt:68-80 | with round-tripping codecs, the store after removal hydrates to the shortened list and reads back exactly the participants of the other raffles; every other key is untouched |
| MainScreen.SavedListReloads | app/src/main/java/co/za/chester/rafflecreator/rafflecreator/MainActivity.kt:99-105 | with a round-tripping raffle codec, a screen started after a save of a list hydrates that list |
| MainScreen.PressBack | app/src/main/java/co/za/chester/rafflecreator/rafflecreator/MainActivity.kt:113-118 | n calls of the back-press callback leave the counter and the log exactly as `Presses` says from the starting counter; the list and the store are unchanged |
| MainScreen.MainActivity.constructor | app/src/main/java/co/za/chester/rafflecreator/rafflecreator/MainActivity.kt:29-47 | after creation the raffle list is the decoded stored list (empty when the key is absent), the counter is 2, the store is untouched and nothing was logged |
| MainScreen.MainActivity.PopulateRaffleList | app/src/main/java/co/za/chester/rafflecreator/rafflecreator/MainActivity.kt:99-107 | the decoded stored list (nothing when the key is absent) is appended to the in-memory list; nothing else changes |
| MainScreen.MainActivity.Save | app/src/main/java/co/za/chester/rafflecreator/rafflecreator/MainActivity.kt:78-80 | the store maps the key to the value, the write is logged, and the list and counter are unchanged (the same write at lines 95 and 141) |
| MainScreen.MainActivity.StoreWrittenElsewhere | app/src/main/java/co/za/chester/rafflecreator/rafflecreator/MainActivity.kt:159-163 | the participant screen opened here shares the repository; its writes replace the store while nothing else of this screen changes |
| MainScreen.MainActivity.ResetExitCounter | app/src/main/java/co/za/chester/rafflecreator/rafflecreator/MainActivity.kt:109-111 | the counter becomes 2; nothing else changes |
| MainScreen.MainActivity.OnBackPressed | app/src/main/java/co/za/chester/rafflecreator/rafflecreator/MainActivity.kt:113-119 | the counter is decremented with 32-bit wrap-around and the press's effect (warning at 1, finish at 0) is appended to the log; the list and the store are unchanged |
| MainScreen.MainActivity.AddRaffle | app/src/main/java/co/za/chester/rafflecreator/rafflecreator/MainActivity.kt:121-124 | the counter is reset to 2; the list, the store and the log are unchanged |
| MainScreen.MainActivity.OpenParticipantActivity | app/src/main/java/co/za/chester/rafflecreator/rafflecreator/MainActivity.kt:159-164 | the participant screen is opened with the raffle's name and identifier; nothing else changes |
| MainScreen.MainActivity.OnRaffleTapped | app/src/main/java/co/za/chester/rafflecreator/rafflecreator/MainActivity.kt:38-41 | tapping the raffle at a position opens that raffle's participant screen; nothing else changes |
| MainScreen.MainActivity.ConfirmAdd | app/src/main/java/co/za/chester/rafflecreator/rafflecreator/MainActivity.kt:135-148 | an empty name changes neither the list, the store nor the log; a non-empty name appends one raffle with that name and the given identifier, keeps all earlier raffles, writes the whole new list under the raffle key and opens the new raffle; the counter is unchanged |
| MainScreen.MainActivity.ConfirmRemove | app/src/main/java/co/za/chester/rafflecreator/rafflecreator/MainActivity.kt:67-83 | the list loses exactly the raffle at the position; the store and the log receive exactly the removal's writes (participant key only when a participant matched, raffle key always); the counter is unchanged |
| MainScreen.MainActivity.OnPause | app/src/main/java/co/za/chester/rafflecreator/rafflecreator/MainActivity.kt:94-97 | the raffle key is written with the encoding of the current list; nothing else changes |

## Left out

- The Android user interface is not modelled. This covers the `RecyclerView` and its
  layout manager, animator and decorations, the adapter's rendering and
  `notifyDataSetChanged`, the layout inflation, and the construction and dismissal
  of `AlertDialog`s. None of it holds state the main screen's logic depends on.
- The "No" and "Cancel" buttons only cancel their dialog, so they change no modelled state.
- The empty-list hint dialog in `onCreate` (lines 49-58) is display only.
- The `Toast` notices of "Add" ("… added", "No Raffle Name entered") are not
  logged. The back-press warning is logged as `ExitWarning`, because it is the
  exit counter's observable output.
- `Repository` is not part of this model. Its storage is an abstract map, and
  failures of the underlying storage are not modelled.
- The string values of the `raffle_name_key` and `participant_key` resources are
  not part of this model. The model uses two distinct constants for them.
- The codecs `Raffle.fromObjects`/`toObjects` and
  `Participant.fromObjects`/`toObjects` are not part of this model. They are
  uninterpreted functions, and no round-trip law is assumed.
- Raffle identifier generation inside `Raffle(raffleName)` is not part of this
  model. `ConfirmAdd` takes the new identifier as a parameter, and identifiers
  are not assumed unique.
- The navigation `Intent` to `RaffleActivity` is logged as an event carrying
  the raffle's name and identifier. The identifier's `toString` and the receiving
  screen are not modelled.
- MainScreen.MainActivity.ConfirmRemove: requires a valid position. The source
  has no such check: an invalid position throws `IndexOutOfBoundsException`,
  already when the dialog message is built (line 66). The thrown exception is not
  modelled. The adapter only reports positions of the displayed list.
- MainScreen.MainActivity.OnRaffleTapped: requires a valid position. The source
  would throw `IndexOutOfBoundsException` at `raffles[position]` (line 39) for
  an invalid one; that exception is not modelled.
- Writes by other screens sharing the repository appear only through
  `StoreWrittenElsewhere`. Each callback's contract is relative to the store
  that the callback starts from.
