# Watcher layer of monitrust, in Dafny

This project models the watcher layer of monitrust, a monitor driven by its configuration. The layer is `src/watcher/mod.rs`. It runs checks and dispatches alerts:

- A `MultiWatcher` pairs one checker with the alerts that read the checker's result. One call of `run` is one cycle. The cycle checks once. A failed check ends the cycle with its error. Otherwise every alert is evaluated, in order, against that one result, and each alert that fires is handed to the alert reporter. Reporter failures are logged and dropped, and the cycle succeeds.
- `WatcherEnum` is the closed set of watcher kinds: disk space and memory. Its `period` and `run` dispatch to the active variant's `MultiWatcher`.
- `WatcherConfiguration` is the parsed form of a watcher, one variant per kind. It converts into `WatcherEnum` variant for variant. Its equality and hash look at the variant only, not at what it carries.

Files:

- `wrappers.dfy`: `Option`, `Result`, and the opaque `anyhow` error.
- `plugins.dfy`: modules `DiskSpace` and `Memory`. They hold the opaque types of the two concrete watcher kinds: configuration, checker, check result, alert.
- `watcher.dfy`: module `Watcher`, the model of `src/watcher/mod.rs`. It imports the two kinds as `DS` and `Mem`.

How the model is built:

- A Rust trait implementation is a value. `CheckerImpl` holds `build` (the trait's `new`), `period` and `check`. `AlertImpl` holds its checker implementation and `isTriggered`. The operations that use them take them as parameters, and `Plugins` holds those of the two kinds.
- `check` reads the machine, so it is a function of the checker and an opaque `System` state.
- The reporter is a `Reporter`: what it answers to the n-th call of a cycle, given the alert. Its answer may therefore depend on the calls made before.
- `MultiWatcher.Run` checks once and then calls `ReportFiring`, a method with a loop over the alerts that stands for the iterator chain. `Run` returns the cycle's result, the reporter calls in order (`Delivery`: the alert and the answer), and the log lines (`FiringAlert` at info level, `ReporterFailed` at warning level). Its contract ties these to the specification function `RunTrace`. The properties of a cycle are lemmas about `RunTrace`.
- `Duration` is a natural number.
- Hashing feeds the variant tag to an abstract hasher step `write(state, tag)`.

## Model

| member | source | states |
|---|---|---|
| `Watcher.MultiWatcher.Run` | src/watcher/mod.rs:53-68 | A failed check returns that error, makes no reporter call and logs nothing. A successful check gives `Ok(())`. The result, the reporter calls and the log are those of the specification `RunTrace`. |
| `Watcher.ReportFiring` | src/watcher/mod.rs:56-65 | The reporter calls are the fired alerts handed over one by one, in order, each with the reporter's answer. The log is made of an info line per call, followed by a warning line when that call failed. |
| `Watcher.FiringIndices` | src/watcher/mod.rs:56-58 | The positions of the firing alerts, in increasing order with no repeats. A position is listed iff `is_triggered` gives `Some` there. |
| `Watcher.TriggeredAt` | src/watcher/mod.rs:56-58 | The fired alerts are as many as the firing positions. The j-th fired alert is what the alert at the j-th firing position produced. |
| `Watcher.TriggeredConcat` | src/watcher/mod.rs:56-58 | Each alert is evaluated on its own. The alerts that fire from `front + back` are those of `front` followed by those of `back`. |
| `Watcher.NothingTriggered` | src/watcher/mod.rs:56-58 | When no alert is triggered, nothing fires. |
| `Watcher.ReportsFiringAlertsInOrder` | src/watcher/mod.rs:55-66 | After a successful check, the cycle succeeds. The reporter is called once for each firing position, in alert order, with the alert produced there. Each call records the reporter's answer. |
| `Watcher.QuietCycle` | src/watcher/mod.rs:55-66 | After a successful check where no alert fires, the cycle succeeds with no reporter call and no log line. This includes an empty alert list. |
| `Watcher.OnlyOneTriggered` | src/watcher/mod.rs:56-58 | When only the alert at position k is triggered, the alert it produced is the only one that fires. |
| `Watcher.SingleFiringCycle` | src/watcher/mod.rs:55-66 | After a successful check where only the alert at position k fires, the cycle succeeds with exactly one reporter call, carrying that alert. |
| `Watcher.AlertsOfDeliveries` | src/watcher/mod.rs:60-65 | The alerts handed to the reporter are exactly the fired alerts, in order, whatever the reporter answers. |
| `Watcher.DeliveryIsBestEffort` | src/watcher/mod.rs:60-66 | The cycle's result and the alerts handed to the reporter do not depend on the reporter's answers. A failed delivery therefore never stops a later one, and never changes the result. |
| `Watcher.DeliveriesAgree` | src/watcher/mod.rs:60-63 | Two reporters that give the same answer to each call produce the same reporter calls. |
| `Watcher.RunIsStateless` | src/watcher/mod.rs:54-67 | Take two cycles of one watcher whose checks return the same thing, with reporters that answer alike. They produce the same result, reporter calls and log. |
| `Watcher.FiringsConcat` | src/watcher/mod.rs:59-64 | Reading the info lines and the warning lines of a log distributes over concatenation. |
| `Watcher.LogRecordsDeliveries` | src/watcher/mod.rs:59-64 | The info lines name every alert handed to the reporter, in order. The warning lines name every error the reporter answered, in order. |
| `Watcher.TriggeredStep` | src/watcher/mod.rs:56-58 | Evaluating one more alert adds its alert at the end if it fires, and nothing otherwise. |
| `Watcher.DeliveriesStep` | src/watcher/mod.rs:60-63 | One more fired alert adds one reporter call at the end, numbered after the earlier calls. |
| `Watcher.LogStep` | src/watcher/mod.rs:59-64 | One more delivery adds its info line to the log, then its warning line if the reporter failed. |
| `Watcher.Deliveries` | src/watcher/mod.rs:60-63 | Each fired alert is handed to the reporter once, so there are as many calls as fired alerts. The j-th call hands over the j-th fired alert and records what the reporter answered to that call. |
| `Watcher.MultiWatcher.New` | src/watcher/mod.rs:44-46 | A `MultiWatcher` built from its serialized form advises the period of the checker built from the carried configuration. It keeps the carried alerts. |
| `Watcher.MultiWatcher.Period` | src/watcher/mod.rs:48-50 | The period is the one the watcher's checker advises. Its property is stated through `MultiWatcher.New` and `IntoPeriod`: the period of the checker built from the configuration. |
| `Watcher.WatcherEnum.Period` | src/watcher/mod.rs:82-87 | The period is the one advised by the active variant's checker, with that kind's implementation. |
| `Watcher.WatcherEnum.Run` | src/watcher/mod.rs:90-97 | Running a `WatcherEnum` produces the cycle of its active variant's `MultiWatcher`, with that kind's implementations. |
| `Watcher.WatcherConfiguration.Into` | src/watcher/mod.rs:105-111 | Conversion keeps the variant: disk space goes to disk space, memory to memory. |
| `Watcher.IntoPeriod` | src/watcher/mod.rs:105-111 | The converted watcher's `period` is the period of the checker built from the configuration the variant carried. This goes through `WatcherEnum.Period` (lines 82-87) and `MultiWatcher.Period` (lines 48-50). |
| `Watcher.IntoRun` | src/watcher/mod.rs:105-111 | A cycle of the converted watcher is a cycle of the `MultiWatcher` made of the checker built from the carried configuration and the carried alerts. |
| `Watcher.WatcherConfiguration.Eq` | src/watcher/mod.rs:114-118 | Two configurations are equal iff both are disk space or both are memory. |
| `Watcher.EqIsEquivalence` | src/watcher/mod.rs:114-126 | Equality is reflexive, symmetric and transitive, so it is a lawful `Eq`. |
| `Watcher.EqIgnoresContents` | src/watcher/mod.rs:114-118 | Two configurations of one kind are equal whatever configuration and alerts they carry. Configurations of different kinds are never equal. |
| `Watcher.WatcherConfiguration.Hash` | src/watcher/mod.rs:120-124 | Hashing feeds only the variant tag to the hasher, whatever the variant carries. |
| `Watcher.EqualConfigurationsHashEqually` | src/watcher/mod.rs:114-124 | Equal configurations give the same hash for every hasher state and hashing step. |

## Left out

- Deserialization of `SerializedMultiWatcher` and `WatcherConfiguration` (the serde derives). The model starts from the parsed values.
- The concrete disk-space and memory checkers and alerts. The `disk_space` and `memory` modules declared at src/watcher/mod.rs:12-13 are not part of this model. Their types are opaque, and their behaviour enters only through `Plugins`. A concrete scenario, such as a 90% threshold against 95% usage, therefore cannot be stated.
- The `AlertReporter` implementations, that is, the delivery transport. Only what the reporter answers is modelled.
- The formatting of `tracing` output. Only which lines are logged, and in what order, is modelled.
- The payload of `anyhow` errors and the inside of `std::time::Duration`. The error is opaque and the period is a natural number.
- The hasher's algorithm. `Hash` feeds the variant tag to an abstract step, and its properties hold for every such step.
- The `Debug` and `Clone` derives, which have no effect on behaviour.
- Timing, and the driver that calls `run` every period. Neither is in this file.
