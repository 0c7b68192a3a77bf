# Export catalogue and token checks of the FastAPI data service

This project models, in Dafny, the two pieces of logic in the data service
that are more than framework wiring:

- **The export metadata catalogue** (`api/services/logic.py`, class
  `ApiLogic`). The metadata record is a JSON file holding a list of
  `{fileName, role, updatedAt}` entries. `get_filenames_details` lists the
  entries a role may see: `admin` sees all of them, `A` and `B` see their
  own, and any other role is refused with 401. A missing record file is a
  404, and that check runs before the role check. `update_file` runs the
  export's query on the backend named by the tag (`"MY"` for MySQL, `"PG"`
  for Postgres, and any other tag runs nothing). It then reads the whole
  record, stamps `updatedAt` on the first entry whose `fileName` contains
  the requested name as a substring, and writes the whole record back.
  `update_mysql` runs the MySQL query and wraps any exception into a 500.
- **Token claims** (`api/utils/auth_utils.py`). `create_access_token` and
  `create_refresh_token` copy the caller's claims and add `exp` and
  `token_type`. `verify_token` accepts only an access token that decodes
  and has a subject.

Files:

- `wrappers.dfy`: `Option` and `Result`.
- `errors.dfy` (module `Errors`): the service's error values (`Failure`).
- `logic.dfy` (module `Metadata`): the descriptors, the role filter, the
  stamping function, and the class `ApiLogic`. Its field `record` is the
  metadata file, and `None` means the file does not exist. A ghost `log`
  records which backend ran and when the record was read and written.
- `jwt_codec.dfy` (module `JwtCodec`): an abstract signed-token codec.
  A token carries its claims and the key and algorithm that signed it.
  Decoding checks the key, the algorithm, an integer `exp` claim against
  the current time, and that a `sub` claim, when present, is a string.
- `auth.dfy` (module `Auth`): claim construction, expiry defaulting,
  `verify_token`, and the round-trip lemmas.

Inputs from outside the model are parameters:

- The clock: `now` is a formatted stamp in `Metadata`, and whole seconds
  since the epoch in `Auth`.
- The outcome of a backend query run (`StepResult`).
- The service settings (`Settings`).

`update_file` never reads the old `updatedAt`, takes no lock, and matches
the requested name with Python's case-sensitive `in`; the model does the
same.

## Model

| member | source | states |
|---|---|---|
| `Metadata.Contains` | api/services/logic.py:48 | Python's `filename in file_detail["fileName"]`: the empty name is contained in every name, and a contained name is no longer than the name it is in; `Metadata.ContainsIff` gives the full characterisation |
| `Metadata.ContainsIff` | api/services/logic.py:48 | the substring test used to pick the entry holds exactly when the name occurs at some position of `fileName`, in both directions; so the empty name matches every entry |
| `Metadata.OnlyRole` | api/services/logic.py:30-33 | the comprehension keeps every entry whose `role` equals the given role and nothing else (per-value counts), as a subsequence of the record, so in the record's order |
| `Metadata.FilenamesDetails` | api/services/logic.py:19-35 | a missing record is 404 "File not found, check the json path" for every role; `admin` gets the record unchanged; `A`/`B` get exactly their own entries in order; any other role is 401 "Unauthorized user" |
| `Metadata.Stamped` | api/services/logic.py:47-50 | same length and order; `fileName` and `role` of every entry unchanged; `updatedAt` becomes `now` on the first entry whose `fileName` contains the name and is unchanged everywhere else; with no match the record is returned unchanged |
| `Metadata.StampedAt` | api/services/logic.py:47-50 | when entry `k` is the first match, the new record is the old one with only entry `k`'s `updatedAt` replaced |
| `Metadata.StampedChangesAtMostOne` | api/services/logic.py:47-50 | the loop's `break` means at most one entry differs after the update |
| `Metadata.StampedIdempotent` | api/services/logic.py:47-50 | repeating the update with the same name and stamp changes nothing further |
| `Metadata.BackendFor` | api/services/logic.py:39-42 | tag `"MY"` selects MySQL, `"PG"` selects Postgres, and every other tag selects no backend |
| `Metadata.ApiLogic.constructor` | api/services/logic.py:14-17 | the service starts over the given record file and has logged nothing |
| `Metadata.ApiLogic.ExecuteQueryPath` | api/services/logic.py:40-42 | a backend run is logged with its backend and export name, and it reports the exception it raised, if any |
| `Metadata.ApiLogic.UpdateFile` | api/services/logic.py:37-54 | only the selected backend runs; if it raises, the exception propagates and the record is neither read nor written; a missing record file fails on reading; otherwise the record read is written back stamped as `Stamped` says, after the backend run |
| `Metadata.ApiLogic.UpdateMysql` | api/services/logic.py:56-63 | runs the MySQL backend only; an exception becomes HTTP 500 "Error executing query: " followed by its message |
| `Auth.ExpiresAt` | api/utils/auth_utils.py:31-33 | expiry is `now + delta` for a given non-zero delta, else `now` plus the configured minutes; a zero delta falls back to the default |
| `Auth.TokenClaims` | api/utils/auth_utils.py:30-34 | the claims are the caller's keys plus `exp` and `token_type`; those two take the new values even if the caller supplied them, and every other claim is copied unchanged |
| `Auth.CreateAccessToken` | api/utils/auth_utils.py:29-35 | the token decodes, up to and including its expiry second, to the caller's claims with `exp` and `token_type = "access_token"`, and fails to decode after it |
| `Auth.CreateRefreshToken` | api/utils/auth_utils.py:38-44 | the same with the refresh lifetime and `token_type = "refresh_token"` |
| `Auth.Get` | api/utils/auth_utils.py:51-52 | `payload.get(key)`: the stored value for a present key, None for a missing one |
| `Auth.VerifyToken` | api/utils/auth_utils.py:47-73 | a decode failure is 401 "Token has expired or is invalid"; a wrong `token_type` is 401 "Refresh token cannot be used for protected routes" before any subject check; an access token without `sub` is 401 "Invalid token"; success exactly when all checks pass, returning the `sub` claim, which is then a string |
| `Auth.AccessTokenRoundTrip` | api/utils/auth_utils.py:29-68 | verifying an access token made for the string subject `u` gives `u` until expiry and the expired error afterwards |
| `Auth.AccessTokenWithoutSubject` | api/utils/auth_utils.py:29-66 | an access token made without a `sub` key is refused with "Invalid token" (or as expired) |
| `Auth.AccessTokenNonStringSubject` | api/utils/auth_utils.py:29-73 | an access token whose `sub` is present but not a string (null included) fails to decode and is refused with "Token has expired or is invalid" |
| `Auth.RefreshTokenRejected` | api/utils/auth_utils.py:38-60 | a refresh token is never accepted, even without `sub`: it gets the refresh-token message while it decodes, and the decoder's message when it has expired or its `sub` is not a string |
| `JwtCodec.Decode` | api/utils/auth_utils.py:50 | decoding succeeds only on a token signed with the service's key and algorithm whose claims pass the `exp` and `sub` checks, and then yields the signed claims |
| `JwtCodec.Encode` | api/utils/auth_utils.py:35 | an encoded token decodes with the same key and algorithm to exactly its claims while they pass the claim checks, and never decodes with another key or algorithm |

## Left out

- The database executors (`api/db/db_config.py`, `api/db_mysql/db_config.py`) are foreign drivers and file I/O: connection pools, query files, cursor execution, commit and rollback, and the CSV writer. A backend run is reduced to "succeeded" or "raised with a message" (`StepResult`).
- The HTTP handlers (`api/services/routes.py`), application setup, ORM models and user registration (`api/main.py`, `api/models.py`, `api/database.py`) are framework wiring. `refresh_access_token` in `api/main.py` is not modelled, and it does not check `token_type`.
- `hash_password` and `verify_password` call bcrypt. Signatures and cryptography in jose's `encode` and `decode` are foreign code. The codec is abstract: decoding fails on a wrong key or algorithm, a failed `exp` check or a `sub` that is not a string. jose's other claim checks (`nbf`, `iat`, `aud`, ...) are not modelled.
- Claim values are null, strings, integers and booleans only; JSON floats, arrays and objects in a token's claims are not modelled.
- JwtCodec.Decode: jose converts `exp` with Python's `int(...)`, so a numeric string such as `"99999999999"` is accepted there and rejected here, and an `exp` of null raises a `TypeError`, which `verify_token` does not turn into a 401; the model treats every non-integer `exp` as a decode failure.
- JSON parsing and serialising of the metadata record are not modelled. A malformed file, an entry without `role` or `fileName` (Python's `KeyError`), and extra keys in an entry are outside the model, and so is a failure to write the file back.
- Auth.ExpiresAt: time is whole seconds, so the microsecond resolution of `timedelta` is not modelled. A delta below one second that is non-zero counts as non-zero in the source but has no counterpart here.
- Reading the clock and formatting it with `strftime` are not modelled. The caller passes the current time in.
- `async`/`await`, concurrent requests and lost updates between concurrent writers are not modelled. Each operation is a sequential method.
- The caller's claims map is never modified by token creation. In Dafny maps are values, so this holds by construction and is not stated separately.
- `update_file` takes no lock and writes the record file in place; nothing in the code limits how often an export is refreshed, so neither is modelled.
