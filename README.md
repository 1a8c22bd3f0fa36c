# Family chores app: a verified model of its core

The app keeps a family's members, their chores (daily or weekly, individual or
collaborative), the rewards they can claim with the points the chores earn,
and the infractions ("faltas") that cost points. All of this lives in a single
state that a reducer updates.

This project models that state and reducer (`Tipos`, `Reducer`), the operations
the context offers the components (`Fachada`, and the store class
`Store.AppStore`), the weekly snapshot and reset (`Snapshot`, `Reinicio`), the
history CSV export (`Csv`), reward eligibility and ordering (`Recompensas`,
`OrdenRecompensas`), the member card and task list (`TarjetaMiembro`,
`ListaTareas`), the three entity forms (`FormularioTarea`, `FormularioMiembro`,
`FormularioTipoFalta`) and the two PIN dialogs (`CambioPin`, `Acceso`).

Outside inputs are parameters:
- The SHA-256 hash is a function parameter fixed when the store is created.
- Clock readings and the week label come in a `Reloj` record.
- Generated ids are passed in by the caller.

JavaScript built-ins are written out in `Texto`:
- `trim` uses the ECMAScript whitespace set.
- `.length` counts UTF-16 code units.
- `toLowerCase`, `split`, `join`, `Number` and number-to-string conversion are defined for the inputs the app uses.

`Listas` defines filtering. The in-place reward sort is an insertion sort on an
array, proved equal to a stable functional sort.

Marking a task done twice for the same member is not idempotent: the task id
is appended to the member's list twice and the points are added twice
(`PropiedadesReducer.MarcarDosVeces`).

The once-a-minute auto-reset check runs inside an effect that subscribes again
only when the last reset instant or the configuration object changes. Its
callback sees the state of the render that subscribed it. The store therefore
keeps that state as `capturado`, and `Store.AppStore.Dispatch` renews it only
on those changes.

## Model

| member | source | states |
|---|---|---|
| Reducer.Reduce | repository-setup/src/context/AppContext.tsx:85-297 | `appReducer`, one case per action; its properties are the `PropiedadesReducer` lemmas: the points floor (`ReducePreservaPuntos`) and, for every case, its full effect with a whole-state frame: `SetStateEfecto`, `AgregarEfecto` (the three additions), `EditarMiembroEfecto`, `EditarTareaEfecto`, `EditarRecompensaEfecto`, `EliminarMiembroEfecto`, `EliminarTareaEfecto`, `EliminarRecompensaEfecto`, `EliminarTipoFaltaEfecto`, `MarcarEnMiembros` with `MarcarEnTareas` and `MarcarConservaIds`, `ReclamarEfecto`, `TiposFaltasEfecto` (add and edit of types), `PenalizarEfecto`, `CambiarModoAdminEfecto`, `ReinicioEfecto`, `ActualizarConfiguracionEfecto` |
| Reducer.EstadoInicial | repository-setup/src/context/AppContext.tsx:20-60 | `initialState`; `PropiedadesReducer.EstadoInicialSinNegativos` and `Fachada.PinInicial` state what it holds |
| PropiedadesReducer.MarcarDesconocida | repository-setup/src/context/AppContext.tsx:128-131 | marking an unknown task returns the state unchanged |
| PropiedadesReducer.ReclamarDesconocida | repository-setup/src/context/AppContext.tsx:184-187 | claiming an unknown reward returns the state unchanged |
| PropiedadesReducer.PenalizarDesconocido | repository-setup/src/context/AppContext.tsx:234-237 | penalizing with an unknown infraction type returns the state unchanged |
| PropiedadesReducer.PuntosTocadosNoNegativos | repository-setup/src/context/AppContext.tsx:133-147 | every member a point-changing action touches ends with non-negative points, whatever the old points or amounts |
| PropiedadesReducer.ReducePreservaPuntos | repository-setup/src/context/AppContext.tsx:85-297 | every action whose payload carries no negative points keeps all members' points non-negative |
| PropiedadesReducer.ReduceTodasPreservaPuntos | repository-setup/src/context/AppContext.tsx:85-297 | any sequence of such actions keeps the floor |
| PropiedadesReducer.EstadoInicialSinNegativos | repository-setup/src/context/AppContext.tsx:20-60 | the initial state has no negative points, stores the hash of `123Maria` and holds three infraction types |
| PropiedadesReducer.MarcarConservaIds | repository-setup/src/context/AppContext.tsx:128-164 | marking changes no task or member id and no task's points, and nothing outside the members and the tasks |
| PropiedadesReducer.MarcarEnMiembros | repository-setup/src/context/AppContext.tsx:133-147 | the member is the same record with the task's points added or removed, floored at 0, and the task id appended or every copy removed; other members are unchanged |
| PropiedadesReducer.MarcarYDesmarcar | repository-setup/src/context/AppContext.tsx:133-147 | done then undone restores the member's points when points and task value are non-negative, and leaves no copy of the id |
| PropiedadesReducer.MarcarDosVeces | repository-setup/src/context/AppContext.tsx:133-147 | done twice adds twice the points and appends the id twice: not idempotent |
| PropiedadesReducer.MarcarEnTareas | repository-setup/src/context/AppContext.tsx:149-162 | the task is the same record with the member's entry written, even for an unknown member, and the done flag recomputed: a collaborative task is done iff every assigned entry is true, an individual one iff some entry is true |
| PropiedadesReducer.IndividualCompletada | repository-setup/src/context/AppContext.tsx:155-158 | anyone marking an individual task makes it done for the day |
| PropiedadesReducer.ColaborativaDesmarcada | repository-setup/src/context/AppContext.tsx:155-158 | an assigned member undoing a collaborative task makes it not done |
| PropiedadesReducer.ColaborativaDosMiembros | repository-setup/src/context/AppContext.tsx:149-162 | with members A and B, A alone does not finish the task and B afterwards does |
| PropiedadesReducer.ReclamarEfecto | repository-setup/src/context/AppContext.tsx:184-214 | the member pays the threshold (floored) and records the reward; the reward is the same record with the claim, carrying the clock's instant and week, appended; nothing outside the members and the rewards changes |
| PropiedadesReducer.PenalizarEfecto | repository-setup/src/context/AppContext.tsx:234-255 | the member loses the type's points (floored) and records the infraction; the infraction is appended to the global list even when the member does not exist; nothing outside the members and the infractions changes |
| PropiedadesReducer.ReinicioEfecto | repository-setup/src/context/AppContext.tsx:260-286 | the reset appends the snapshot, clears every task's completion and every member's completed tasks and infractions, empties the global infractions and records the instant; each member is otherwise the same record, and rewards, types, configuration and admin mode are unchanged |
| PropiedadesReducer.ReinicioConservaPuntos | repository-setup/src/context/AppContext.tsx:272-277 | the reset keeps member ids, each member's points and so the points total, and the points floor |
| PropiedadesReducer.EliminarMiembroEfecto | repository-setup/src/context/AppContext.tsx:101-109 | deleting removes every member with the id, keeps every copy of each other member (same count) in order, and turns each task into the same task with the id filtered out of its assignments; rewards, types, infractions, history, configuration, admin mode and the last reset are unchanged |
| PropiedadesReducer.EliminarTareaEfecto | repository-setup/src/context/AppContext.tsx:122-126 | deleting a task leaves the members as they were (their lists keep the id), removes every task with the id and keeps every copy of each other task (same count) in order; every other part of the state is unchanged |
| PropiedadesReducer.EditarMiembroConservaPuntos | repository-setup/src/context/AppContext.tsx:93-99 | an edit with name, colour and avatar changes exactly those three fields of the members with the id, and nothing outside the members |
| PropiedadesReducer.ConfiguracionParcialEfecto | repository-setup/src/context/AppContext.tsx:288-293 | an empty configuration patch changes nothing; a PIN patch changes only the hash |
| PropiedadesReducer.TiposFaltasEfecto | repository-setup/src/context/AppContext.tsx:217-227 | adding an infraction type appends it; editing spreads the patch over every type with the id; nothing else in the state changes |
| PropiedadesReducer.EliminarRecompensaEfecto | repository-setup/src/context/AppContext.tsx:178-182 | deleting a reward removes every reward with the id, keeps every copy of each other reward in order, and changes nothing outside the rewards |
| PropiedadesReducer.EliminarTipoFaltaEfecto | repository-setup/src/context/AppContext.tsx:228-232 | deleting an infraction type removes every type with the id, keeps every copy of each other type in order, and changes nothing else (recorded infractions keep the id) |
| PropiedadesReducer.AgregarEfecto | repository-setup/src/context/AppContext.tsx:90-91 | adding a member (and likewise a task at 111-112, a reward at 167-168) keeps the old list as a prefix, puts the new element last, adds exactly one copy of it, and changes nothing else |
| PropiedadesReducer.EditarMiembroEfecto | repository-setup/src/context/AppContext.tsx:93-99 | any member patch is spread over every member with the id; other members and the rest of the state are unchanged; a patch without an id keeps every id |
| PropiedadesReducer.EditarTareaEfecto | repository-setup/src/context/AppContext.tsx:114-120 | the same for a task patch over the tasks |
| PropiedadesReducer.EditarRecompensaEfecto | repository-setup/src/context/AppContext.tsx:170-176 | the same for a reward patch over the rewards |
| PropiedadesReducer.CambiarModoAdminEfecto | repository-setup/src/context/AppContext.tsx:257-258 | the flag is set to the payload and nothing else changes; setting it again to the same value changes nothing |
| PropiedadesReducer.SetStateEfecto | repository-setup/src/context/AppContext.tsx:87-88 | each field carried by the payload replaces the state's, each absent one keeps it; an empty payload changes nothing |
| PropiedadesReducer.ActualizarConfiguracionEfecto | repository-setup/src/context/AppContext.tsx:288-292 | each setting carried by the patch replaces the stored one, each absent one keeps it; nothing outside the configuration changes |
| Fachada.MarcarTareaSiExiste | repository-setup/src/context/AppContext.tsx:461-487 | `marcarTarea`'s both-found guard around the dispatch; stated both ways by `GuardasExigenAmbos` |
| Fachada.ReclamarSiExiste | repository-setup/src/context/AppContext.tsx:522-538 | `reclamarRecompensa`'s both-found guard; stated both ways by `GuardasExigenAmbos` |
| Fachada.PenalizarSiExiste | repository-setup/src/context/AppContext.tsx:572-593 | `penalizarMiembro`'s infraction and guard; stated by `GuardasExigenAmbos` and `PenalizacionRegistrada` |
| Fachada.GuardasExigenAmbos | repository-setup/src/context/AppContext.tsx:461-487 | each guarded dispatch (mark, claim, penalize) changes the state only when both the target and the member exist, and when both exist it is exactly the reducer's step |
| Fachada.PenalizacionRegistrada | repository-setup/src/context/AppContext.tsx:572-593 | with both present, exactly one infraction is appended with the member, the type, the notes and the instant, and the member records it |
| Fachada.AgregarMiembroNuevo | repository-setup/src/context/AppContext.tsx:390-399 | a new member joins last with 0 points and empty lists, keeping the floor |
| Fachada.AgregarTareaYRecompensa | repository-setup/src/context/AppContext.tsx:426-440 | a new task starts not done with no entries and the creation instant; a new reward starts with no claims |
| Fachada.CambiarPinVerifica | repository-setup/src/context/AppContext.tsx:599-615 | after changing the PIN to p, p verifies for any hash, another PIN verifies iff it hashes like p, and only the hash changes |
| Fachada.PinInicial | repository-setup/src/context/AppContext.tsx:49 | the initial state accepts `123Maria` |
| Snapshot.SnapshotDe | repository-setup/src/context/AppContext.tsx:617-652 | the snapshot `reiniciarSemana` builds; stated by `SnapshotPropiedades`, `SnapshotIdsDistintos`, `SnapshotClaves` and `SnapshotIdRepetido`, and computed member by member by `Construir` |
| Snapshot.SnapshotPropiedades | repository-setup/src/context/AppContext.tsx:617-652 | the snapshot is labelled with the week, copies the infractions, and names the first member with the longest completed list (`""` without members) |
| Snapshot.SnapshotIdsDistintos | repository-setup/src/context/AppContext.tsx:629-640 | with distinct ids each member's points and lists are recorded under its id |
| Snapshot.SnapshotClaves | repository-setup/src/context/AppContext.tsx:629-640 | each per-member map has exactly the member ids as keys |
| Snapshot.SnapshotIdRepetido | repository-setup/src/context/AppContext.tsx:629-632 | with a repeated id the later member's points win |
| Snapshot.MapaPorIdValor | repository-setup/src/context/AppContext.tsx:629-640 | each key holds the value of the last member with that id |
| Snapshot.SumasAgregar | repository-setup/src/context/AppContext.tsx:643-645 | the totals add each member's points and list sizes |
| Snapshot.SumaPuntosNoNegativa | repository-setup/src/context/AppContext.tsx:643 | the points total is non-negative when no member's points are negative |
| Snapshot.PuntosHastaSuma | repository-setup/src/context/AppContext.tsx:643 | no member's points exceed the total then |
| Snapshot.IndiceMasActivo | repository-setup/src/context/AppContext.tsx:646-650 | the most active position has the longest list and every earlier member a strictly shorter one |
| Snapshot.Construir | repository-setup/src/context/AppContext.tsx:624-652 | the loop building the snapshot member by member yields exactly `SnapshotDe` |
| Reinicio.LeerHora | repository-setup/src/context/AppContext.tsx:372 | `horaReinicio.split(':').map(Number)`, the first two pieces; stated by `LeerHoraDigitos`, `HoraVaciaNuncaReinicia` and `SinSeparadorNuncaReinicia` |
| Reinicio.DebeReiniciar | repository-setup/src/context/AppContext.tsx:366-383 | the interval's due test; stated by `DebeReiniciarSiYSoloSi`, `ReinicioPorDefecto` and `NoReiniciaDosVecesElMismoDia` |
| Reinicio.LeerHoraDigitos | repository-setup/src/context/AppContext.tsx:372 | a digit setting `hh:mm` reads as those two numbers |
| Reinicio.DebeReiniciarSiYSoloSi | repository-setup/src/context/AppContext.tsx:366-383 | the reset fires iff weekday, hour and minute match and the last reset is before today began |
| Reinicio.ReinicioPorDefecto | repository-setup/src/context/AppContext.tsx:52-53 | the defaults fire on Sunday at 23:59 |
| Reinicio.HoraVaciaNuncaReinicia | repository-setup/src/context/AppContext.tsx:372-373 | an empty setting never fires (the minute piece is missing) |
| Reinicio.SinSeparadorNuncaReinicia | repository-setup/src/context/AppContext.tsx:372-373 | a setting without `:` never fires |
| Reinicio.NoReiniciaDosVecesElMismoDia | repository-setup/src/context/AppContext.tsx:378 | once the reset has run, no later check on the same day fires again |
| Csv.Filas | repository-setup/src/context/AppContext.tsx:696-707 | the header and one data row per snapshot and member; stated by `FilasForma`, `FilasDatosLargo`, `FilaDatosEn`, `FilaDeMiembroAusente` and `FilaDeMiembroPresente` |
| Csv.Contenido | repository-setup/src/context/AppContext.tsx:695-709 | the rows joined with commas and line feeds; stated by `ContenidoPorLineas`, `LineaPorCampos` and `ComaEnNombre` |
| Csv.FilasDatosLargo | repository-setup/src/context/AppContext.tsx:698-706 | there is one data row per snapshot and member |
| Csv.FilaDatosEn | repository-setup/src/context/AppContext.tsx:698-706 | row i·m+j, with m members, is snapshot i with member j |
| Csv.FilasForma | repository-setup/src/context/AppContext.tsx:696-707 | the header first, then the data rows in history-then-member order |
| Csv.SoloEncabezado | repository-setup/src/context/AppContext.tsx:696-709 | without history or members only the header line is exported |
| Csv.FilaDeMiembroAusente | repository-setup/src/context/AppContext.tsx:702-704 | a member the snapshot does not record gets `0` in all three figures |
| Csv.FilaDeMiembroPresente | repository-setup/src/context/AppContext.tsx:700-704 | a recorded member gets its recorded points and list sizes |
| Csv.FilasTodasLimpias | repository-setup/src/context/AppContext.tsx:696-707 | every row has five fields, none holding a separator that no label or name holds |
| Csv.ContenidoPorLineas | repository-setup/src/context/AppContext.tsx:709 | without line feeds in labels and names, splitting the export on line feeds gives back the rows: one line for the header and one per snapshot and member |
| Csv.LineaPorCampos | repository-setup/src/context/AppContext.tsx:709 | without commas in labels and names, each line splits into exactly its five fields |
| Csv.ComaEnNombre | repository-setup/src/context/AppContext.tsx:709 | nothing is quoted: a name with a comma shifts its row to six fields |
| Store.AppStore.constructor | repository-setup/src/context/AppContext.tsx:20-60 | the store starts from the initial state, with no negative points |
| Store.AppStore.Dispatch | repository-setup/src/context/AppContext.tsx:85-297 | the new state is the reducer's result; a non-negative action keeps the floor; the captured state is renewed iff the last reset changed or a new configuration object was stored, so the capture keeps agreeing with the state on those two fields (`CapturaCoherente`) |
| Store.AppStore.AgregarMiembro | repository-setup/src/context/AppContext.tsx:390-399 | dispatches the new member, which then exists, keeping the floor; the captured state stays as it was |
| Store.AppStore.AgregarTarea | repository-setup/src/context/AppContext.tsx:426-440 | dispatches the new task, appended after the old ones; the captured state stays as it was |
| Store.AppStore.AgregarRecompensa | repository-setup/src/context/AppContext.tsx:489-501 | dispatches the new reward, appended with no claims; the captured state stays as it was |
| Store.AppStore.MarcarTarea | repository-setup/src/context/AppContext.tsx:461-487 | applies the guarded mark: unchanged when the task or member is missing; floor kept; the captured state stays as it was |
| Store.AppStore.ReclamarRecompensa | repository-setup/src/context/AppContext.tsx:522-538 | applies the guarded claim: unchanged when the reward or member is missing; floor kept; the captured state stays as it was |
| Store.AppStore.PenalizarMiembro | repository-setup/src/context/AppContext.tsx:572-593 | applies the guarded penalty: unchanged when the type or member is missing; floor kept; the captured state stays as it was |
| Store.AppStore.VerificarPin | repository-setup/src/context/AppContext.tsx:599-602 | true iff the PIN's hash is the stored hash |
| Store.AppStore.CambiarPin | repository-setup/src/context/AppContext.tsx:604-615 | only the stored hash changes, and the new PIN then verifies; the captured state becomes the new state |
| Store.AppStore.ReiniciarSemana | repository-setup/src/context/AppContext.tsx:617-662 | the snapshot of the current members and infractions is appended to the history through the reset action; floor kept; the captured state is renewed when the reset instant differs from the last one |
| Store.AppStore.VerificarReinicio | repository-setup/src/context/AppContext.tsx:366-383 | the tick as written: the due test and the snapshot read the captured state, and the reset is applied to the current one; the capture is renewed iff the reset instant differs from the current state's; no reset leaves both states alone; when the capture agrees with the state on the reset instant and configuration (`CapturaCoherente`, kept by every store method), the due test is the current state's, so only the snapshot differs from `VerificarReinicioAlDia` |
| Store.AppStore.VerificarReinicioAlDia | repository-setup/src/context/AppContext.tsx:366-383 | the tick as intended: resets iff the condition holds on the current state, appending the snapshot of the current members and infractions; floor kept; under a coherent clock a reset renews the capture, so no later tick on the same day is due |
| Store.InstantaneaObsoleta | repository-setup/src/context/AppContext.tsx:364-387 | marking a task does not renew the captured state, so a snapshot built from it records the member's points from before the mark, which differ from the current ones |
| Store.AppStore.ExportarCsv | repository-setup/src/context/AppContext.tsx:695-709 | returns the CSV text; without line feeds in the texts it has one line for the header and one per snapshot and member |
| Store.AppStore.OrdenarRecompensas | repository-setup/src/components/RecompensasList.tsx:315-316 | the state's rewards are replaced by their stable sort by threshold: sorted and a permutation; the captured state stays as it was |
| Recompensas.EstaDisponible | repository-setup/src/components/RecompensasList.tsx:66-84 | `estaDisponible`; stated by `SinMiembroNoDisponible`, `PuntosSegunTipo`, `TopeSemanal`, `OtrasReclamacionesNoInfluyen` and `Monotonia` |
| Recompensas.EstadoIndividual | repository-setup/src/components/RecompensasList.tsx:213-231 | the state a member's reward row shows; stated by `EstadoTarjetaCorrecto` |
| Recompensas.SinMiembroNoDisponible | repository-setup/src/components/RecompensasList.tsx:67-68 | no reward is available for an unknown member |
| Recompensas.PuntosSegunTipo | repository-setup/src/components/RecompensasList.tsx:71-75 | available means the member's own points (individual) or the family total (cooperative) reach the threshold |
| Recompensas.TopeSemanal | repository-setup/src/components/RecompensasList.tsx:78-83 | with points enough, available iff this week's claims by the member are below the cap |
| Recompensas.ReclamacionesAgregar | repository-setup/src/components/RecompensasList.tsx:79-81 | one more log entry counts iff it is by this member in this week |
| Recompensas.OtrasReclamacionesNoInfluyen | repository-setup/src/components/RecompensasList.tsx:79-83 | claims by others or in other weeks do not change availability |
| Recompensas.Monotonia | repository-setup/src/components/RecompensasList.tsx:79-83 | one more own claim this week never makes a reward available, and uses up the last one |
| Recompensas.DescuentoExacto | repository-setup/src/context/AppContext.tsx:522-538 | claiming an available individual reward deducts exactly the threshold and logs the claim |
| Recompensas.ReclamarAgotaTope | repository-setup/src/context/AppContext.tsx:522-538 | after the claim the week's count grew by one, so a once-a-week reward is used up |
| Recompensas.ReclamarParaFamiliaNoHaceNada | repository-setup/src/components/RecompensasList.tsx:163-165 | the cooperative button claims for the id `familia`, which with no such member changes nothing |
| Recompensas.FamiliarSegunPrimerMiembro | repository-setup/src/components/RecompensasList.tsx:163 | the cooperative card asks about the first member only, so claims logged for `familia` never use up its cap |
| Recompensas.EstadoTarjetaCorrecto | repository-setup/src/components/RecompensasList.tsx:213-231 | the row shows claimable iff available, "limit reached" only at or above the threshold with the cap used, and "Faltan N" only for a positive N |
| OrdenRecompensas.OrdenarOrdena | repository-setup/src/components/RecompensasList.tsx:315-316 | the sort's result is in ascending threshold order |
| OrdenRecompensas.OrdenarPermuta | repository-setup/src/components/RecompensasList.tsx:315-316 | the sort's result is a permutation of its input |
| OrdenRecompensas.OrdenarEstable | repository-setup/src/components/RecompensasList.tsx:315-316 | rewards with equal thresholds keep their relative order |
| OrdenRecompensas.OrdenarOrdenada | repository-setup/src/components/RecompensasList.tsx:315-316 | an already sorted list is left as it is |
| OrdenRecompensas.InsertarEnSitio | repository-setup/src/components/RecompensasList.tsx:315-316 | one insertion step on the array computes the functional insertion and leaves the tail alone |
| OrdenRecompensas.OrdenarEnSitio | repository-setup/src/components/RecompensasList.tsx:315-316 | the in-place array sort computes the stable functional sort |
| TarjetaMiembro.Proxima | familia-tareas-app/src/components/MiembroCard.tsx:20 | the first sorted reward above the points; stated by `ProximaMinima` |
| TarjetaMiembro.Alcanzadas | familia-tareas-app/src/components/MiembroCard.tsx:26 | the sorted rewards at or below the points; stated by `AlcanzadasPrefijo` and `AlcanzadasParticion` |
| TarjetaMiembro.Chips | familia-tareas-app/src/components/MiembroCard.tsx:118-125 | `slice(0, 3)` of the reached rewards; stated by `ChipsYExceso` |
| TarjetaMiembro.Exceso | familia-tareas-app/src/components/MiembroCard.tsx:126-128 | the `+n más` figure; stated by `ChipsYExceso` |
| TarjetaMiembro.DisponiblesCorrectas | familia-tareas-app/src/components/MiembroCard.tsx:16-18 | the card lists exactly the individual rewards, each as often as in the state, in ascending threshold order |
| TarjetaMiembro.ProximaMinima | familia-tareas-app/src/components/MiembroCard.tsx:20 | the next reward is above the points with the smallest such threshold; none iff every one is reached |
| TarjetaMiembro.AlcanzadasPrefijo | familia-tareas-app/src/components/MiembroCard.tsx:26 | the reached rewards are the sorted list's prefix before the next reward |
| TarjetaMiembro.AlcanzadasParticion | familia-tareas-app/src/components/MiembroCard.tsx:26 | reached iff individual and at or below the points; with those above they partition the list |
| TarjetaMiembro.FaltanPositivo | familia-tareas-app/src/components/MiembroCard.tsx:86-102 | the missing points shown are positive, so the zero floor never applies |
| TarjetaMiembro.ChipsYExceso | familia-tareas-app/src/components/MiembroCard.tsx:118-128 | at most three chips, the first reached rewards; "+k más" appears iff more than three, with k the rest |
| ListaTareas.Click | familia-tareas-app/src/components/TareasList.tsx:42-48 | `handleMarcarTarea`; stated by `ClickDesconocida`, `ClickInvierte` and `DosClicks` |
| ListaTareas.Completadas | familia-tareas-app/src/components/TareasList.tsx:153 | the count of `true` entries; stated by `CompletadasTrasMarcar` and `ContadorConNoAsignados` |
| ListaTareas.ClickDesconocida | familia-tareas-app/src/components/TareasList.tsx:42-44 | a click on an unknown task does nothing |
| ListaTareas.ClickInvierte | familia-tareas-app/src/components/TareasList.tsx:42-48 | a click dispatches the negated flag, which then reads the other way |
| ListaTareas.DosClicks | familia-tareas-app/src/components/TareasList.tsx:42-48 | two clicks from not-done restore the member's points and leave no copy of the task id |
| ListaTareas.Particion | familia-tareas-app/src/components/TareasList.tsx:53-54 | the daily and weekly lists split the tasks, each keeping their order |
| ListaTareas.CompletadasTrasMarcar | familia-tareas-app/src/components/TareasList.tsx:153 | writing one entry moves the `true` count by one exactly when the flag changes |
| ListaTareas.ContadorConNoAsignados | familia-tareas-app/src/components/TareasList.tsx:153 | entries of members no longer assigned still count, giving e.g. "2 / 1" |
| FormularioTarea.Validar | familia-tareas-app/src/components/modals/TareaModal.tsx:44-66 | `validarFormulario`'s error record; stated by `ValidarSiYSoloSi`, `ErrorNombreEnOrden`, `NombreDeEspacios` and `ColaborativaReemplaza` |
| FormularioTarea.Alternar | familia-tareas-app/src/components/modals/TareaModal.tsx:107-111 | adding or removing a member id; stated by `AlternarDosVeces` and `AlternarPresente` |
| FormularioTarea.Envio | familia-tareas-app/src/components/modals/TareaModal.tsx:68-94 | what `handleSubmit` records and hands over; stated by `EnvioSiYSoloSi` and `NombreEnviado` |
| FormularioTarea.ValidarSiYSoloSi | familia-tareas-app/src/components/modals/TareaModal.tsx:44-66 | accepted iff the trimmed name has 3 to 100 units, some member is assigned, and a collaborative task has at least 2 |
| FormularioTarea.ErrorNombreEnOrden | familia-tareas-app/src/components/modals/TareaModal.tsx:47-53 | one name message, in the order empty, short, long |
| FormularioTarea.NombreDeEspacios | familia-tareas-app/src/components/modals/TareaModal.tsx:47-48 | a name of blanks is reported as missing |
| FormularioTarea.ColaborativaReemplaza | familia-tareas-app/src/components/modals/TareaModal.tsx:55-62 | below two members the collaborative message replaces the "at least one" message |
| FormularioTarea.AlternarDosVeces | familia-tareas-app/src/components/modals/TareaModal.tsx:107-111 | toggling an absent id appends it, and toggling again restores the list |
| FormularioTarea.AlternarPresente | familia-tareas-app/src/components/modals/TareaModal.tsx:108-109 | toggling a present id removes every copy and nothing else |
| FormularioTarea.NombreEnviado | familia-tareas-app/src/components/modals/TareaModal.tsx:73-91 | the submitted name is trimmed and within 3 to 100 units |
| FormularioTarea.Formulario.constructor | familia-tareas-app/src/components/modals/TareaModal.tsx:34-38 | the form starts with the new-task defaults |
| FormularioTarea.Formulario.Cargar | familia-tareas-app/src/components/modals/TareaModal.tsx:23-41 | opening loads the task being edited, or the defaults when there is none, and clears the errors |
| FormularioTarea.Formulario.Reiniciar | familia-tareas-app/src/components/modals/TareaModal.tsx:96-104 | closing restores the defaults and clears the errors |
| FormularioTarea.Formulario.ToggleMiembro | familia-tareas-app/src/components/modals/TareaModal.tsx:106-123 | toggles the id, turns collaboration off below two members, clears the members error |
| FormularioTarea.Formulario.CambiarColaborativa | familia-tareas-app/src/components/modals/TareaModal.tsx:125-131 | switching on below two members keeps the flag and sets the error; otherwise the flag takes the value; name, points, frequency and members are unchanged |
| FormularioTarea.Formulario.Enviar | familia-tareas-app/src/components/modals/TareaModal.tsx:68-94 | records the errors and hands over exactly what `Envio` gives for the values from before the call; name, points, frequency, members and flag are unchanged |
| FormularioTarea.EnvioSiYSoloSi | familia-tareas-app/src/components/modals/TareaModal.tsx:68-94 | the errors are the validation's; values are handed over iff the three rules hold, with the name trimmed and the rest as typed |
| FormularioMiembro.Validar | src/components/modals/MiembroModal.tsx:39-61 | `validarFormulario`'s message; stated by `ValidarSiYSoloSi`, `OrdenDeErrores`, `NombreRepetidoSinCaso` and `EditarSinRenombrar` |
| FormularioMiembro.Enviar | src/components/modals/MiembroModal.tsx:63-82 | the action `handleSubmit` dispatches; stated by `EnvioEdicion` and `EnvioAlta` |
| FormularioMiembro.ValidarSiYSoloSi | src/components/modals/MiembroModal.tsx:39-61 | accepted iff the trimmed name has 2 to 50 units and no member with another id has it, ignoring case |
| FormularioMiembro.OrdenDeErrores | src/components/modals/MiembroModal.tsx:42-57 | a length error is the one message; the duplicate message only once both length checks pass |
| FormularioMiembro.NombreRepetidoSinCaso | src/components/modals/MiembroModal.tsx:50-55 | a new member may not reuse a name in another case |
| FormularioMiembro.EditarSinRenombrar | src/components/modals/MiembroModal.tsx:50-53 | saving a member under its own stored name is never a duplicate of itself |
| FormularioMiembro.EnvioEdicion | src/components/modals/MiembroModal.tsx:63-75 | an accepted edit changes only the edited member's name (trimmed), colour and avatar; every other member and the rest of the state are unchanged |
| FormularioMiembro.EnvioAlta | src/components/modals/MiembroModal.tsx:63-82 | an accepted new member is appended with the trimmed name, 0 points and empty lists under the fresh id; points stay non-negative |
| FormularioTipoFalta.Validar | src/components/modals/TipoFaltaModal.tsx:41-62 | `validarFormulario`'s error record; stated by `ValidarSiYSoloSi`, `CamposIndependientes` and `ErrorCampoEnOrden` |
| FormularioTipoFalta.Enviar | src/components/modals/TipoFaltaModal.tsx:64-89 | the action `handleSubmit` dispatches; stated by `EnvioRecortado`, `EnvioEdicion` and `EnvioAlta` |
| FormularioTipoFalta.ValidarSiYSoloSi | src/components/modals/TipoFaltaModal.tsx:41-62 | accepted iff the trimmed type has 3 to 100 units and the trimmed description 5 to 200 |
| FormularioTipoFalta.CamposIndependientes | src/components/modals/TipoFaltaModal.tsx:44-58 | each field's error depends on that field only, so both can show at once |
| FormularioTipoFalta.ErrorCampoEnOrden | src/components/modals/TipoFaltaModal.tsx:44-58 | one message per field, in the order empty, short, long |
| FormularioTipoFalta.EnvioRecortado | src/components/modals/TipoFaltaModal.tsx:64-89 | the submitted type and description are the trimmed inputs, within their lengths, and trimming them again changes nothing |
| FormularioTipoFalta.EnvioEdicion | src/components/modals/TipoFaltaModal.tsx:72-78 | an accepted edit with a non-empty id sends exactly the edit of that id with both texts trimmed and points and compensation as given; the types with the id become those values, every other type and the rest of the state are unchanged |
| FormularioTipoFalta.EnvioAlta | src/components/modals/TipoFaltaModal.tsx:79-86 | an accepted form without an id appends exactly one type under the fresh id, with both texts trimmed and points and compensation as given; nothing else changes |
| CambioPin.ValidarNuevoPin | repository-setup/src/components/modals/CambiarPinModal.tsx:37-56 | the second step's error record; stated by `NuevoPinSiYSoloSi` and `AmbosErrores` |
| CambioPin.PinActualSiYSoloSi | repository-setup/src/components/modals/CambiarPinModal.tsx:22-35 | the first step passes iff the PIN is non-empty and verifies |
| CambioPin.NuevoPinSiYSoloSi | repository-setup/src/components/modals/CambiarPinModal.tsx:37-56 | the new PIN is accepted iff its length is 4 to 20 (untrimmed) and the confirmation is present and equal |
| CambioPin.AmbosErrores | repository-setup/src/components/modals/CambiarPinModal.tsx:40-52 | both fields' messages can show at once |
| CambioPin.ModalCambiarPin.constructor | repository-setup/src/components/modals/CambiarPinModal.tsx:12-20 | the dialog starts at the first step with empty fields |
| CambioPin.ModalCambiarPin.VerificarPaso | repository-setup/src/components/modals/CambiarPinModal.tsx:58-63 | the errors become the first step's verdict, and the dialog moves on iff the PIN is non-empty and verifies |
| CambioPin.ModalCambiarPin.CambiarPaso | repository-setup/src/components/modals/CambiarPinModal.tsx:65-71 | a valid new PIN is stored (and then verifies) and the dialog resets; otherwise the errors show, the store is untouched and the step and all three typed PINs are kept; a change only follows an accepted current PIN |
| CambioPin.ModalCambiarPin.Volver | repository-setup/src/components/modals/CambiarPinModal.tsx:82-87 | back to the first step, clearing new and confirm but keeping the current PIN |
| CambioPin.ModalCambiarPin.Cerrar | repository-setup/src/components/modals/CambiarPinModal.tsx:73-80 | every field reset and the dialog closes |
| CambioPin.ModalCambiarPin.EscribirPinActual | repository-setup/src/components/modals/CambiarPinModal.tsx:131-135 | typing sets the field and clears its error only |
| CambioPin.ModalCambiarPin.EscribirNuevoPin | repository-setup/src/components/modals/CambiarPinModal.tsx:175-179 | typing sets the field and clears its error only |
| CambioPin.ModalCambiarPin.EscribirConfirmarPin | repository-setup/src/components/modals/CambiarPinModal.tsx:200-204 | typing sets the field and clears its error only |
| Acceso.Enviar | src/components/modals/LoginModal.tsx:17-50 | `handleSubmit` on the dialog's state; stated by `PinCortoNoCuenta`, `PinCorrecto`, `PinErroneo`, `ExitoSoloSiCorrecto`, `IntentosAcotados` and `TresFallosCierran` |
| Acceso.Escribir | src/components/modals/LoginModal.tsx:92-100 | the input's `onChange`, disabled from 3 failures; stated by `IntentosAcotados` and `Bloqueado` |
| Acceso.PinCortoNoCuenta | src/components/modals/LoginModal.tsx:20-23 | a PIN under 4 units sets the error and leaves the count unchanged |
| Acceso.PinCorrecto | src/components/modals/LoginModal.tsx:25-29 | a correct PIN succeeds, clears input and error, and resets the count to 0 |
| Acceso.PinErroneo | src/components/modals/LoginModal.tsx:35-47 | a wrong PIN adds exactly one attempt and clears the input; it closes the dialog iff two attempts had already failed |
| Acceso.ExitoSoloSiCorrecto | src/components/modals/LoginModal.tsx:17-50 | success is reported iff the submit is enabled, the PIN has 4 units and it verifies |
| Acceso.IntentosAcotados | src/components/modals/LoginModal.tsx:108-111 | the count never passes 3, so the remaining figure stays in 0 to 3 |
| Acceso.Bloqueado | src/components/modals/LoginModal.tsx:100 | from 3 failures on, submitting and typing change nothing |
| Acceso.TresFallosCierran | src/components/modals/LoginModal.tsx:36-47 | three wrong PINs in a row from a fresh count close the dialog with 3 attempts and 0 remaining |
| Acceso.ModalLogin.constructor | src/components/modals/LoginModal.tsx:13-15 | starts empty with no attempts |
| Acceso.ModalLogin.EscribirPin | src/components/modals/LoginModal.tsx:92-100 | typing clears the error, ignored while disabled |
| Acceso.ModalLogin.EnviarPin | src/components/modals/LoginModal.tsx:17-50 | the dialog's new state and the success flag are those of `Acceso.Enviar` with the store's verdict; the count stays within 3 |
| Acceso.ModalLogin.CerrarModal | src/components/modals/LoginModal.tsx:52-56 | closing clears PIN and error and keeps the count |
| Texto.Trim | familia-tareas-app/src/components/modals/TareaModal.tsx:47-51 | `String.prototype.trim` over the ECMAScript whitespace set; its ensures and `TrimIdempotente`, `TrimVacio` and `TrimInicioDeEspacios` state what it removes |
| Texto.Utf16Length | familia-tareas-app/src/components/modals/TareaModal.tsx:49-51 | `.length` in UTF-16 code units; `Utf16LengthBmp` states it is the character count below U+10000 |
| Texto.Minusculas | src/components/modals/MiembroModal.tsx:50-51 | `toLowerCase` for ASCII and Latin-1 capitals; stated by `MinusculasIgnoraCaso` |
| Texto.MinusculasIgnoraCaso | src/components/modals/MiembroModal.tsx:50-51 | lower-casing keeps the length, moves each capital 32 code points down, keeps every other character, leaves no capital and is idempotent |
| Texto.Partes | repository-setup/src/context/AppContext.tsx:372 | `split` on one character; `UnirPartes` and `PartesUnir` state it inverts `join` |
| Texto.NumeroDe | repository-setup/src/context/AppContext.tsx:372 | `Number` of a piece, for blanks and digit strings; stated by `NumeroDeDigitos` and `NumeroDeNatAString` |


## Left out

- Persistence: the local-storage and IndexedDB writes and reads, and their error handling, are not modelled.
- Timers: the one-minute interval, the notification timers and the 30-second reset of the login counter are not modelled. `Acceso.TresFallosCierran` therefore shows the count staying at 3 with nothing to reset it.
- Notifications, confetti and sounds are UI effects with floating point, canvas and audio.
- The CSV file download (Blob, link, click) is browser work; only the text is modelled.
- The progress-bar percentages are floating point.
- Dates:
  - Instants are integers.
  - The week label, weekday, hour, minute and start of day come from the clock record.
  - The ISO week arithmetic of `format(…, 'yyyy-II')` and `startOfWeek`/`endOfWeek` is not modelled.
- JavaScript numbers are modelled as unbounded integers. That means no floating point, no `NaN` and no overflow.
- `Texto.NumeroDe`: `Number` of a piece of the reset-time setting counts as a number only when the trimmed piece is empty or all digits. Signs, decimals and exponents are treated as not matching any hour.
- `Texto.Minusculas`: `toLowerCase` folds only ASCII and Latin-1 capitals. Other scripts compare case-sensitively in `FormularioMiembro`.
- Partial updates treat a missing field and an explicit `undefined` alike.
- `Acceso.ModalLogin.EscribirPin`: the input's `maxLength` of 20 is not modelled. Any text typed is taken as is.
- `OrdenRecompensas.OrdenarEnSitio`: the engine's sort algorithm is not specified. Since ES2019 the sort is stable, so its result equals the stable insertion sort proved here, but the number of comparisons and the intermediate orders are not modelled.
- `FormularioMiembro.EditarSinRenombrar`: stated for a state whose names are unique ignoring case. When two other members share a name, the edit is rejected by them and not by the member's own entry.
- `Store.AppStore.VerificarReinicio`: the snapshot is stored in the browser database with two `await`s before the reset is dispatched (AppContext.tsx:655-660), so other dispatches can land in between. The model builds the snapshot and dispatches the reset in one step. It also renews the captured state at the dispatch, not at the later render.
- `Store.AppStore.OrdenarRecompensas`: the in-place sort also reorders the captured state's rewards when that state still shares the array. The model leaves the captured state alone. The reset reads no rewards from it.
- The modals' open/close prop, the kiosk, sound and admin-mode toggles, and the other components are display logic.

## Findings

| source | as written | input that shows it | evidently intended | confidence | as-written member | corrected member |
|---|---|---|---|---|---|---|
| repository-setup/src/context/AppContext.tsx:364-387 | the timed reset tests the condition and builds the snapshot from the state captured when the effect last subscribed, then resets the current state | load a state, mark a 5-point task done for a member (neither dependency changes), then reach the reset minute: the history records the member's points and completed tasks from before the mark | the snapshot records the week being closed, that is the current members and infractions | medium; not executed | Store.AppStore.VerificarReinicio, with Store.InstantaneaObsoleta | Store.AppStore.VerificarReinicioAlDia |
