# Bank account ledger and movie origin filter, in Dafny

This project models two pieces of a small Python exercise repository.

1. **The `Account` ledger** (`bank_account.py`). An account holds a balance, a
   per-operation withdrawal limit and an append-only history of operation
   records. Four guarded operations change it:
   - `withdraw` checks, in this order, that the amount is positive, within the
     limit and within the balance;
   - `deposit` checks that the amount is positive;
   - `transfer` is a withdrawal on the source and a deposit on the target,
     followed by a `transfert_sortant` line on the source and a
     `transfert_entrant` line on the target;
   - `set_limit` checks that the new limit is strictly positive.

   Each successful operation appends history lines through `_historiser`. Each
   line records the kind, the amount and the balance after the operation.
2. **The movie filter** `classify` (`Hela/movie_wiki.py`). It keeps, in order,
   the movies whose `Origin.Ethnicity` equals the requested origin.

Files:
- `bank_account.dfy`, module `BankAccount`: the ledger as pure functions. Each
  operation returns a `Step` (a reply plus the resulting account). A transfer
  returns a `TransferStep` (a reply plus both resulting accounts). A refused
  operation returns the account unchanged. The Python methods' `False` is refined into
  an error kind: `InvalidAmount`, `LimitExceeded` or `InsufficientFunds`.
- `bank_runs.dfy`, module `BankRuns`: a collection of accounts addressed by
  position, standing for the caller's registry. It models single operations
  and whole runs of operations on that collection. A transfer here performs
  the four writes of `Account.transfer` one after another on the collection. So a transfer
  of an account to itself behaves as the Python code would with aliasing.
- `movie_wiki.dfy`, module `MovieWiki`: the filter as a recursive function,
  its specification lemmas, and the list comprehension as a loop.

Amounts are exact `real` numbers. The ledger invariant `Valid` says that the
balance is non-negative and the limit is strictly positive. The constructor
does not enforce it (`bank_account.py:28-38`). The operations preserve it.

## Model

| member | source | states |
|---|---|---|
| BankAccount.Open | bank_account.py:28-38 | A new account keeps the given holder, balance and limit and starts with an empty history. Nothing is checked: the ledger invariant is not established here. |
| BankAccount.OpenDefault | bank_account.py:20-38 | An account opened with the default balance 2000 and limit 1000 has an empty history and satisfies the ledger invariant. |
| BankAccount.Historise | bank_account.py:88-95 | Appends exactly one line with the given kind and amount, stamped with the current balance. Earlier lines are untouched. Balance, limit and holder are unchanged. |
| BankAccount.Withdraw | bank_account.py:40-55 | Succeeds iff 0 < amount <= limit and amount <= balance. The error is InvalidAmount iff amount <= 0; LimitExceeded iff the amount is positive and above the limit; InsufficientFunds iff it is within the limit but above the balance. A refusal leaves the account unchanged. A success lowers the balance by the amount, keeps the limit, and appends exactly one `retrait` line whose balance-after is the new balance. The invariant is preserved. |
| BankAccount.Deposit | bank_account.py:57-66 | Succeeds iff amount > 0. Otherwise it returns InvalidAmount with the account unchanged. A success raises the balance by the amount and appends exactly one `depot` line carrying the new balance. The invariant is preserved. |
| BankAccount.Transfer | bank_account.py:68-76 | Gives the same reply as a withdrawal of the amount from the source. On refusal neither account changes. The sum of the two balances is always conserved. On success the source drops by the amount and the target rises by it; limits are kept. The source history gains `retrait` then `transfert_sortant`. The target history gains `depot` then `transfert_entrant`. The deposit it ignores is never refused. Each account that satisfied the invariant still does. |
| BankAccount.SetLimit | bank_account.py:78-86 | Succeeds iff the new limit is > 0. Otherwise it returns InvalidAmount with the account unchanged. A success sets the limit, keeps the balance, and appends one `modif_plafond` line whose amount is the new limit and whose balance-after is the balance. The invariant is preserved. |
| BankAccount.LimitCheckedBeforeBalance | bank_account.py:43-51 | A positive amount above both the limit and the balance is refused with LimitExceeded and changes nothing. |
| BankAccount.DepositThenWithdraw | bank_account.py:40-66 | For a valid account and 0 < amount <= limit, a deposit followed by a withdrawal of the same amount both succeed. Together they restore balance and limit and append a `depot` line then a `retrait` line. |
| BankAccount.DemoScenario | bank_account.py:20-76 | The demonstration run lives in the text-only duplicate of the ledger, file "Bank_account 2.py", lines 77-88; that file's `Account` keeps no history, so only the replies and balances are compared. The cited lines are the defaults and operations that run exercises. The run: two default accounts; 650 withdrawn from the first; 1500 deposited to and 50 withdrawn from the second; 350 transferred from the second to the first. The withdrawals, deposit and transfer all succeed, and the final balances are 1700 and 3100. |
| BankAccount.RefusalScenarios | bank_account.py:43-51 | On a default account, withdrawing 1200 is refused with LimitExceeded and setting the limit to -5 is refused with InvalidAmount. Both leave the account unchanged. |
| BankRuns.TransferAt | bank_account.py:68-76 | A transfer inside the collection gives the reply of the source's withdrawal and leaves the collection's size unchanged. It leaves every other account untouched. On refusal it changes nothing. |
| BankRuns.TransferAtDistinct | bank_account.py:68-76 | Between two distinct positions, a transfer inside the collection is exactly the two-account Transfer written back. |
| BankRuns.TransferToSelf | bank_account.py:68-76 | A successful transfer of an account to itself keeps its balance and limit. It appends four lines: `retrait`, `depot`, `transfert_sortant`, `transfert_entrant`. |
| BankRuns.TotalUpdate | bank_account.py:53-64 | Replacing one account changes the sum of balances by exactly the difference of its balance. |
| BankRuns.TransferAtConservesTotal | bank_account.py:68-76 | Every transfer, self-transfers included, keeps the sum of all balances. |
| BankRuns.ApplyTotal | bank_account.py:40-86 | Each operation changes the sum of balances by its flow. That is +amount for a successful deposit, -amount for a successful withdrawal, and 0 otherwise. |
| BankRuns.Apply | bank_account.py:40-95 | Each operation keeps the number of accounts. Each account whose balance was non-negative and limit positive keeps both, whatever the other accounts hold. It only appends to histories: each account's history before is a prefix of its history after. |
| BankRuns.Run | bank_account.py:40-86 | Running a sequence of operations keeps the number of accounts. |
| BankRuns.RunPreservesValid | bank_account.py:40-86 | After any run of operations, an account that started with a non-negative balance and a positive limit still has both, even when other accounts were opened invalid. |
| BankRuns.RunPreservesAllValid | bank_account.py:40-86 | After any run of operations on a collection of valid accounts, every account is still valid. |
| BankRuns.RunHistoryGrows | bank_account.py:88-95 | After any run, every account's original history is a prefix of its final history. |
| BankRuns.InternalRunConservesTotal | bank_account.py:68-86 | A run made only of transfers and limit changes keeps the sum of all balances. |
| MovieWiki.MissingNeverNamed | Hela/movie_wiki.py:9 | A movie whose origin has no ethnicity is never kept when a named origin is requested. |
| MovieWiki.Classify | Hela/movie_wiki.py:8-9 | The result is no longer than the input, and every movie in it is from the requested origin. |
| MovieWiki.ClassifyMembers | Hela/movie_wiki.py:9 | A movie is in the result if and only if it is in the input and from the requested origin (soundness and completeness). |
| MovieWiki.ClassifyAppend | Hela/movie_wiki.py:8-9 | Filtering a concatenation is the concatenation of the filtered parts. |
| MovieWiki.ClassifyIsSubsequence | Hela/movie_wiki.py:8-9 | The result is an order-preserving subsequence of the input. |
| MovieWiki.ClassifyCounts | Hela/movie_wiki.py:8-9 | Each movie occurs in the result as often as in the input if it is from the origin, and not at all otherwise. |
| MovieWiki.ClassifyIdempotent | Hela/movie_wiki.py:8-9 | Filtering the result again by the same origin returns it unchanged. |
| MovieWiki.ClassifyLoop | Hela/movie_wiki.py:9 | Building the result with a loop that appends each matching movie yields the filter's result. |

## Left out

- The Tkinter `BankApp` window and its dialogs (`bank_account.py:108-402`) are presentation code. The registry of accounts is modelled only as a positional collection. The GUI never offers an account as its own transfer target (`bank_account.py:341`); the model still describes what a self-transfer would do.
- The `messagebox` error and warning dialogs appear in the model only as the error kind of a refused reply. The Python `transfer` returns a bare `False`; the model returns the withdrawal's error kind.
- The random ten-digit account number (`bank_account.py:32`) is nondeterministic and is not modelled.
- The `datetime.now()` date of each history line (`bank_account.py:93`) is a clock reading and is not modelled. Records carry the kind, amount and balance-after only.
- Floating point: `float(...)` conversions, rounding, and the NaN case are not modelled. Amounts are exact reals. With IEEE floats a NaN amount would pass all three `withdraw` checks.
- `__str__` (`bank_account.py:97-103`) only formats text for display.
- The JSON load and save of the movie script (`Hela/movie_wiki.py:3-5`, `11-13`) are file I/O and are left out.
- A movie without an `"Origin"` key makes `classify` crash. The model makes the origin a mandatory field instead. A missing or null `"Ethnicity"` inside it is modelled (`Missing`); an ethnicity that is a JSON value other than a string or null is not.
- Movies are reduced to a title and an origin; the other dictionary fields pass through the filter unread.
- `Mariam/movie_wiki.py`: its `classify` only prints. Its save loop (`Mariam/movie_wiki.py:30-32`) agrees with `MovieWiki.Classify` only on movies whose origin carries an `"Ethnicity"` key. It indexes `film["Origin"]["Ethnicity"]`, so it raises `KeyError` where the `"Ethnicity"` key is absent; that crash is not modelled. A null `"Ethnicity"` reads as `None` in both scripts and is dropped for a named origin.
