# Project Manager: the project record store

This is a Dafny model of the project store behind the Project Manager backend's routes in `main.js`:

- `GET /projects` lists the stored projects.
- `POST /projects` creates one.
- `DELETE /projects/:id` deletes one.

Each handler reads the data file and parses it as JSON. Create and delete then change the parsed array in place, with `push` on create and `splice` on delete, and write the whole array back. A project record has five fields: `id`, `title`, `description`, `status` and `createdAt`.

Modules:

- `Wrappers` (`wrappers.dfy`): the `Option` type.
- `JsParseInt` (`js_parse_int.dfy`): ECMAScript's `parseInt(string)` with one argument, as the delete route applies it to its route parameter. It follows section 19.2.5 of the ECMAScript Language Specification (ECMA-262):
  - leading white space is skipped;
  - one optional sign is read;
  - a `0x`/`0X` prefix selects base 16;
  - the value is the longest digit run; an empty run is NaN, written `None`.

  The module also has the decimal rendering the page script uses to build `/projects/${id}`.
- `Projects` (`projects.dfy`): the records, the data file as a value (`Store`), and one pure function per route. `Create` and `Delete` map the file before the request to an `Outcome`, the file afterwards plus a tagged response (`Ok`, `BadRequest`, `NotFound` or `StoreError`); `List` gives only the response, since the GET route leaves the file unchanged.
- `Handlers` (`handlers.dfy`): class `ProjectStore`, the data file as mutable state.
  - It has two fields: `file`, meaning unreadable, not an array, or an array; and `projects`, the parsed records.
  - Its methods `List`, `Create` and `Delete` follow the handler bodies step by step.
  - Each method's postcondition ties its response and the new field values to the matching `Projects` function.
- `StoreProperties` (`store_properties.dfy`): lemmas that span several requests or compare a route with an independent definition.

The model does not do I/O.

- Reading and parsing the file becomes the `file` state (`Unreadable`, `NotAnArray` or `ArrayFile`) together with the records.
- Writing the file becomes the new value of the fields.
- The clock reading for `createdAt` is a parameter.
- HTTP status codes become the response tag: 400 is `BadRequest`, 404 is `NotFound`, 500 is `StoreError`.

How the routes treat the data file and ids:

- **Loading.** Only create treats an unreadable or non-array file as empty (main.js:53-59). List answers 500 when the file cannot be read or parsed (main.js:32-35), and returns non-array JSON unchanged, since it has no array check (main.js:29-31). Delete also answers 500 when the file is not an array (main.js:99-105).
- **Ids.** The new id is the last record's id + 1 (main.js:62-63). While ids increase this equals the largest id + 1 (`NextIdIsMaxPlusOne`), and every sequence of requests keeps them increasing (`RunKeepsIdsIncreasing`). It is handed out again after the newest record is deleted (`IdReusedAfterDeletingNewest`).

## Model

| member | source | states |
|---|---|---|
| `Projects.List` | main.js:27-36 | The listing fails with a store error exactly when the file cannot be read or parsed. An array file lists its records unchanged. A file that is JSON but not an array answers `Ok(OtherJson)`, the parsed value as it is. |
| `Projects.Create` | main.js:41-85 | Create fails exactly when the title or description is missing or empty. It then answers BadRequest and leaves the file unchanged. On success the file becomes an array holding the loaded records plus the new record at the end. The record carries the body's title and description, the given createdAt, and the given status, or "en cours" when the status is missing or empty. The new id is `NextId` of the loaded records: 1 when they are empty (including an array file emptied by deletes), otherwise the last record's id + 1. An unreadable or non-array file becomes that single record, with id 1. The new id exceeds every loaded id when ids increase. Validity and increasing ids are preserved. |
| `Projects.Delete` | main.js:90-125 | An id that parses to NaN gives BadRequest. Otherwise a file that is unreadable or not an array gives StoreError. Otherwise an id that no record has gives NotFound. Every failure leaves the file unchanged. On success the returned record has the parsed id, and the file shrinks by one. The remaining records plus the returned one are the old records as a multiset. Increasing ids are preserved. |
| `Projects.NextId` | main.js:62-63 | The new id is 1 for an empty store. When ids increase, it is larger than every stored id. |
| `Projects.FindIndex` | main.js:108 | The result is -1 exactly when no record has the id. Otherwise it is the index of the first record with that id. |
| `Projects.RemoveAt` | main.js:114 | Splicing out one index removes exactly one record, keeps the multiset of the others, and keeps ids increasing. |
| `Projects.Loaded` | main.js:53-59 | The records a create starts from: none for an unreadable or non-array file, and the stored records for any valid file. |
| `Projects.Truthy` | main.js:46 | The `!title` / `!description` test and the default status "en cours" at main.js:70: a string field passes exactly when present and non-empty. Its users `Projects.Create` and `Handlers.ProjectStore.Create` state the consequences. |
| `JsParseInt.ParseInt` | main.js:92 | `parseInt(req.params.id)`. A number needs a decimal digit in the parameter, and a negative one a minus sign. `ParseIntReadsDecimal` (round trip) and `ParseIntWithoutDigits` (NaN case) carry the rest of its contract. |
| `JsParseInt.ParseSigned` | main.js:92 | parseInt after the white space: a number needs a digit first or right after a sign, and a negative result needs the `-` sign. |
| `JsParseInt.ParseMagnitude` | main.js:92 | parseInt after the sign: a number needs a leading decimal digit (a hex prefix starts with `0`), and a leading digit 1-9 always gives a number. |
| `JsParseInt.NatString` | public/script.js:21 | The text `${id}` gives a natural id: non-empty, all decimal digits, starting with "0" only for 0. |
| `JsParseInt.DecimalString` | public/script.js:30 | The text of any integer id in the delete URL: it starts with "-" exactly for a negative id, otherwise with a digit, and everything after the first character is a digit. |
| `Handlers.ProjectStore.List` | main.js:27-36 | The method fails exactly when the file is unreadable. For an array file it returns the records, for non-array JSON `OtherJson`. It agrees with `Projects.List`. |
| `Handlers.ProjectStore.Create` | main.js:41-85 | A failure is BadRequest and changes no field. On success the file is an array of the loaded records plus the new one, whose id is `NextId` of the loaded records. Increasing ids are kept. Response and new state equal `Projects.Create` on the old state. |
| `Handlers.ProjectStore.Delete` | main.js:90-125 | A failure changes no field. On success one record is gone and the returned record was stored. Increasing ids are kept. Response and new state equal `Projects.Delete` on the old state. |
| `JsParseInt.TrimStart` | main.js:92 | The result is a suffix of the input. Everything dropped is ECMAScript white space, and the result does not start with white space. |
| `JsParseInt.DigitRun` | main.js:92 | The result is the length of the longest prefix made of digits of the given base. |
| `JsParseInt.NatStringDigits` | public/script.js:21-30 | The digits of the decimal text of a natural number read back as the number. |
| `JsParseInt.ParseIntReadsDecimal` | main.js:92-94 | parseInt reads back the decimal text of any integer id, as the page script puts it in the delete URL. This holds after any leading white space and before any non-digit text, except for "0x" after a zero. |
| `JsParseInt.ParseIntWithoutDigits` | main.js:92-96 | A parameter with no decimal digit parses to NaN. |
| `StoreProperties.MaxId` | main.js:62-63 | The result is an upper bound of the ids that some record attains. It is the reference for the "largest id + 1" rule. |
| `StoreProperties.SpliceIsRemoveFirst` | main.js:108-114 | Splicing out the index that findIndex reports equals the reference deletion `RemoveFirst`. When the id is absent, the records are unchanged. |
| `StoreProperties.DeleteRemovesFirstMatch` | main.js:108-120 | A successful delete leaves exactly `RemoveFirst(old records, id)`, so the others keep their relative order. It returns the first record with that id. |
| `StoreProperties.NextIdIsMaxPlusOne` | main.js:62-63 | While ids increase, last id + 1 equals largest id + 1. |
| `StoreProperties.RunKeepsIdsIncreasing` | main.js:62-115 | Start from a valid file with increasing ids, such as an empty or missing one. Then any sequence of list, create and delete requests keeps the file valid and its ids increasing, hence pairwise distinct. |
| `StoreProperties.DeleteUndoesCreate` | main.js:62-115 | Start from an array file with increasing ids. Creating a project and then deleting it by the decimal text of its id restores the file and returns that project. |
| `StoreProperties.DeleteFound` | main.js:92-120 | Deleting by the decimal text of an id present in an array file splices out its first occurrence and returns that record. |
| `StoreProperties.IdReusedAfterDeletingNewest` | main.js:62-63 | Create, delete the newest record, then create again: the second create hands out the same id as the first. |
| `StoreProperties.FirstProjectScenario` | main.js:41-120 | From a missing file, the first create yields id 1 with status "en cours". Deleting "1" returns that project, and the list is then empty. |

## Left out

- File I/O: reading (main.js:29, 55, 101) and writing (main.js:76, 115) the data file, and JSON parsing and serialisation. The file is the object's state.
- A failing `writeFileSync` (which reaches the catch blocks at main.js:81-84 and 121-124, possibly leaving a truncated file): writes are taken to succeed.
- Express routing, middleware, the test route, static serving and `app.listen` (main.js:5-22, 130-137): responses are tags, not HTTP messages.
- JSON values other than strings in the create body: a field is a string or absent. Other falsy or truthy values (numbers, booleans, objects) are not modelled.
- Array elements that are not project records, and ids that are not integers. Records are typed, and ids are unbounded integers rather than doubles. Precision loss beyond 2^53 and `${id}` switching to exponent notation at 10^21 are not modelled.
- `parseInt` on very long digit runs gives an unbounded integer here, where JavaScript rounds to a double.
- The clock: `createdAt` is passed in rather than read from `new Date()` (main.js:71).
- Concurrent requests: each request is atomic. Interleaved read-modify-write races, and the duplicate ids they can cause, are not modelled.
- `public/script.js` (DOM rendering and fetch calls) and `public/common.js` (theme selection): browser code with no store logic. Only the decimal rendering of ids in delete URLs is used.
- User accounts, credentials, sessions, owners and status updates are not part of this model: the code has no such logic.
