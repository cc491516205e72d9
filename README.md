# Contacts manager: a Dafny model of its business logic

The system is a contacts web application. A Fastify/Prisma backend registers
users by email and keeps, per user, contacts whose street, district, city and
state are filled in from a Brazilian postal code (CEP) through the ViaCEP
lookup service. A Next.js frontend lists, searches, creates, edits and
deletes those contacts.

This project models the parts of both that carry logic:

- **The contact store** (`ContactRepository`). A class over an in-memory
  `rows` table with a fresh-id counter.
  - `create` appends one row under a fresh id.
  - `findByEmailOrPhone` and `findAllContacts` read the table.
  - `updateContact` patches the row in place; Prisma leaves `undefined`
    columns as they are, so those fields are `Option`s.
  - `delete` removes the row and reports `false` instead of failing.
- **The contact workflow** (`ContactWorkflow`). `create` runs four ordered,
  guarded steps:
  1. the owner lookup;
  2. a global duplicate check on email or phone;
  3. the CEP lookup, which is a function parameter standing for the service;
  4. the insert.

  A ghost trace records which steps ran; a failed check means the later steps, the CEP request among them, never run. `listAllContacts` filters by owner.
  `updateContact` forwards only id, name, email and phone. `delete` passes
  the store's boolean through.
- **The user workflow** (`UserWorkflow`). Registration checks for an existing
  email before it inserts, and it keeps emails unique.
- **The contact routes** (`ContactRoutes`):
  - the `email`-header guard;
  - the declared body schemas (required keys, the CEP pattern `^\d{5}-?\d{3}$`);
  - the update argument PUT builds;
  - the replies of the four handlers.
- **The zod schemas** (`Schemas`). Zod's email check and `Date.parse` are
  predicate parameters.
- **The client state**:
  - the `useContacts` hook (`ContactsHook`);
  - the contact form's CEP state machine (`ContactFormView`);
  - the user form's guard (`UserFormView`);
  - the list's edit mode and initials (`ContactListView`);
  - the contacts page's search filter (`ContactsPageView`);
  - the home page's greeting, recent contacts and statistics (`HomePageView`).

  Each network call is replaced by the outcome it resolves or rejects with,
  passed in as a parameter (`Outcome`, with `Thrown` telling an `Error` from
  any other thrown value).

`Domain` holds the records: `Contact`, `ContactCreate`, `ContactCreateData`,
the update argument, `User`, and the lookup response. `Text` and `Lists`
model the JavaScript string and array operations the code uses: `split`,
`includes`, case mapping, `filter`, `slice` and `reverse`.

Where the code and the design notes disagree, the model follows the code:

- Every success reply has status 201, GET, PUT and DELETE included.
- A workflow failure in a handler goes to `reply.send(error)`; it is not
  turned into a 400 by the handler.
- PUT builds blank street/district/city/state, but the workflow drops them,
  so an update never changes or re-resolves the stored address, CEP,
  number or complement.
- The duplicate check of `create` spans the contacts of every user.

## Model

| member | source | states |
|---|---|---|
| Wrappers.OrEmpty | frontend/src/components/ContactForm.tsx:26-35 | the given string, or "" when it is absent |
| Wrappers.MessageOf | frontend/src/hooks/useContacts.ts:26 | a thrown `Error` yields its message, anything else the fallback |
| Text.ToLower | frontend/src/app/contacts/page.tsx:59-60 | same length, each character mapped to lower case (ASCII) |
| Text.ToUpper | frontend/src/components/ContactList.tsx:30 | same length, each character mapped to upper case (ASCII) |
| Text.ContainsIffOccurs | frontend/src/app/contacts/page.tsx:59-61 | `includes` holds iff the term occurs at some position of the text |
| Text.ContainsEmpty | frontend/src/app/contacts/page.tsx:59-61 | every text includes the empty string |
| Text.Split | frontend/src/app/home/page.tsx:21 | `split` on one character gives at least one part, and no part holds the separator |
| Text.JoinSplit | frontend/src/app/home/page.tsx:21 | joining the parts of a split on the same separator gives back the text |
| Text.FirstPartIsPrefix | frontend/src/app/home/page.tsx:21 | the first part is a prefix without the separator, followed by the separator or the end |
| Text.SplitWithoutSeparator | frontend/src/app/home/page.tsx:21 | a text without the separator splits into itself alone |
| Lists.Filter | frontend/src/app/contacts/page.tsx:58 | `filter` keeps all and only the elements that pass, and is never longer than its input |
| Lists.FilterAppend | frontend/src/app/contacts/page.tsx:58 | filtering distributes over concatenation |
| Lists.FilterIsSubsequence | frontend/src/app/contacts/page.tsx:58 | the filtered list is a subsequence of the input, in the same order |
| Lists.FilterAll | frontend/src/app/home/page.tsx:46-48 | a predicate every element passes keeps the whole list |
| Lists.Reverse | frontend/src/app/home/page.tsx:70 | same length, element i is the input's element n-1-i |
| Lists.SliceFrom | frontend/src/app/home/page.tsx:70 | `slice(-k)` is the last min(k, n) elements |
| Domain.WithId | src/repositories/contacts.repository.ts:6-21 | the stored row carries the given fields under the given id |
| Domain.WithoutId | frontend/src/hooks/useContacts.ts:77 | removing by id keeps exactly the elements with another id |
| Domain.WithoutUniqueId | src/repositories/contacts.repository.ts:66-69 | with distinct ids, removing an existing id drops exactly that one row |
| Domain.WithoutAbsentId | src/repositories/contacts.repository.ts:70-72 | removing an id no row has changes nothing |
| ContactRepository.Patched | src/repositories/contacts.repository.ts:45-62 | name, email and phone are replaced; each of cep, street, number, district, city, state and complement takes the given value when defined and keeps the old one when undefined; id and owner never change |
| ContactRepository.FirstWithEmailOrPhone | src/repositories/contacts.repository.ts:24-34 | null iff no row has the email and no row has the phone, otherwise a row matching one of them |
| ContactRepository.IndexOfId | src/repositories/contacts.repository.ts:47-49 | the position of a row with the id, or -1 iff there is none |
| ContactRepository.ContactsRepository.constructor | src/repositories/contacts.repository.ts:4 | the table starts empty and valid |
| ContactRepository.ContactsRepository.Create | src/repositories/contacts.repository.ts:5-22 | appends exactly one row holding the data under an id no row had, keeps every other row, keeps ids unique |
| ContactRepository.ContactsRepository.FindByEmailOrPhone | src/repositories/contacts.repository.ts:23-35 | null iff no row, of any owner, has that email or that phone; otherwise a row matching one of them |
| ContactRepository.ContactsRepository.FindAllContacts | src/repositories/contacts.repository.ts:36-44 | all and only the rows with that owner |
| ContactRepository.ContactsRepository.UpdateContact | src/repositories/contacts.repository.ts:45-64 | fails with the not-found error, changing nothing, iff no row has the id; otherwise replaces only that row by its patch |
| ContactRepository.ContactsRepository.Delete | src/repositories/contacts.repository.ts:66-73 | true iff a row had the id; the table loses exactly the rows with that id; never fails |
| UserWorkflow.FirstWithEmail | backend/src/usecases/user.usecase.ts:11 | null iff no user has the email, otherwise a user with it |
| UserWorkflow.AppendNewEmail | backend/src/usecases/user.usecase.ts:10-17 | appending a user whose email is new keeps emails unique |
| UserWorkflow.UserRepository.constructor | backend/src/usecases/user.usecase.ts:6-8 | the user table starts empty and valid |
| UserWorkflow.UserRepository.FindByEmail | backend/src/usecases/user.usecase.ts:11 | null iff no user has the email, otherwise a user with it |
| UserWorkflow.UserRepository.Create | backend/src/usecases/user.usecase.ts:15 | appends one user with the name, the email and a fresh id |
| UserWorkflow.UserUseCase.constructor | backend/src/usecases/user.usecase.ts:6-8 | the workflow works on the given store |
| UserWorkflow.UserUseCase.Create | backend/src/usecases/user.usecase.ts:10-18 | an existing email fails with "Usuário já existente" and changes nothing; otherwise exactly one user with that name and email is appended and returned; unique emails stay unique |
| UserWorkflow.UserUseCase.FindByEmail | backend/src/usecases/user.usecase.ts:20-22 | exactly what the store returns for the email |
| ContactWorkflow.GetAddressByCep | src/usecases/contact.usecase.ts:14-22 | succeeds iff the service answered without `erro`, with that answer; an unknown CEP and a failed call give "Falha ao buscar CEP: " followed by the reason |
| ContactWorkflow.CepFailureHasPrefix | src/usecases/contact.usecase.ts:20 | every lookup failure message starts with "Falha ao buscar CEP: " |
| ContactWorkflow.NewContactData | src/usecases/contact.usecase.ts:33-45 | the address comes from the lookup, the owner is the user's id, the other fields are the caller's |
| ContactWorkflow.Forwarded | src/usecases/contact.usecase.ts:59-60 | only id, name, email and phone are passed on; every other field is undefined |
| ContactWorkflow.ForwardedKeepsAddress | src/usecases/contact.usecase.ts:59-60 | whatever the caller sends, the stored CEP, address, number and complement survive an update |
| ContactWorkflow.ContactUseCase.constructor | src/usecases/contact.usecase.ts:9-12 | the workflow works on the given contact and user stores |
| ContactWorkflow.ContactUseCase.Create | src/usecases/contact.usecase.ts:24-46 | no owner: "User not found"; a contact of any owner with the email or phone: "Contact already exists"; a failed lookup: its message. In each case the later steps do not run and nothing is inserted. Otherwise one row is appended: looked-up address, the owner's id, the caller's fields, a fresh id |
| ContactWorkflow.ContactUseCase.ListAllContacts | src/usecases/contact.usecase.ts:47-57 | fails with "User not found" iff no user has the email; otherwise all and only that user's contacts |
| ContactWorkflow.ContactUseCase.UpdateContact | src/usecases/contact.usecase.ts:59-63 | the store's update of the forwarded id, name, email and phone; only the row with the id changes |
| ContactWorkflow.ContactUseCase.Delete | src/usecases/contact.usecase.ts:65-69 | the store's boolean, unchanged; exactly the rows with the id are removed |
| ContactRoutes.EmailHeader | src/routes/contact.routes.ts:86-94 | accepted iff the header is a single non-empty value, which is then the user's email; otherwise the header error |
| ContactRoutes.SchemaThenGuard | src/routes/contact.routes.ts:17-26 | when the email format refuses "", every header the declared schema accepts passes the handler's guard with the same value; a non-empty header that is not an email passes the guard but not the schema |
| ContactRoutes.IsCepMatchesPattern | src/routes/contact.routes.ts:35 | the CEP check accepts exactly five digits, an optional '-', then three digits |
| ContactRoutes.ValidateCreateBody | src/routes/contact.routes.ts:28-38 | accepted iff name, email, phone, cep and number are present, the cep fits the pattern and the email the email format |
| ContactRoutes.ComplementOptional | src/routes/contact.routes.ts:30 | whether a complement is given never decides acceptance |
| ContactRoutes.CreateRequest | src/routes/contact.routes.ts:97-105 | the workflow request carries the body's fields and the header's email as `userEmail` |
| ContactRoutes.PostContact | src/routes/contact.routes.ts:84-110 | a bad header gives 400 with the header error and no change. After a good header, one reply per outcome of the workflow's create: an unknown user sends "User not found", a contact sharing the email or phone sends the duplicate error, a failed CEP lookup sends its message, each with the table unchanged; otherwise 201 with the new contact, built from the body, the looked-up address and the header user's id, appended under a fresh id |
| ContactRoutes.GetContacts | src/routes/contact.routes.ts:198-215 | a bad header gives 400; an unknown user sends "User not found"; otherwise 201 with all and only the table's contacts owned by the header's user |
| ContactRoutes.ValidateUpdateBody | src/routes/contact.routes.ts:235-264 | accepted iff name, email and phone are present, a given cep fits the pattern, and the email fits the email format |
| ContactRoutes.UpdateArgument | src/routes/contact.routes.ts:332-347 | the path id and the body's fields, with street, district, city and state set to "" |
| ContactRoutes.BlankAddressNeverStored | src/routes/contact.routes.ts:335-347 | after the workflow's update the stored address, CEP, number and complement are the old ones, and name, email and phone are the body's |
| ContactRoutes.PutContact | src/routes/contact.routes.ts:331-351 | 201 iff a row has the id, with that row patched by the forwarded update (the body's name, email and phone) and stored in its place; otherwise the not-found error is sent and the table is unchanged |
| ContactRoutes.DeleteContact | src/routes/contact.routes.ts:402-410 | always 201 with `true` iff a row had the id; the rows with the id are gone |
| Schemas.FieldIssues | src/schemas/contact.schema.ts:4-7 | a field yields no issue iff it is present and passes its rule; otherwise exactly one issue with "Required" or the rule's message |
| Schemas.ContactCreateAcceptsIff | src/schemas/contact.schema.ts:3-8 | accepted iff all four keys are present, the name is non-empty, the phone has at least 8 characters, and both emails pass the email check |
| Schemas.EmptyContactNameReported | src/schemas/contact.schema.ts:4 | an empty name is reported first, with "Nome é obrigatório" |
| Schemas.UserCreateAcceptsIff | src/schemas/user.schema.ts:3-6 | accepted iff the name is present and non-empty and the email is present and passes the email check |
| Schemas.UserResponseAcceptsIff | src/schemas/user.schema.ts:8-17 | accepted iff the create fields are, an id is present, and both timestamps are present and parse as dates |
| ContactsHook.ReplacedById | frontend/src/hooks/useContacts.ts:57-59 | same length; the elements with the id become the updated contact, the others are unchanged |
| ContactsHook.AppendKeepsUniqueIds | frontend/src/hooks/useContacts.ts:39 | appending a contact with a new id keeps the ids distinct |
| ContactsHook.ReplaceKeepsUniqueIds | frontend/src/hooks/useContacts.ts:57-59 | replacing by id with the same id keeps the ids distinct, and at most one element changes |
| ContactsHook.RemoveAfterReplace | frontend/src/hooks/useContacts.ts:57-77 | removing an id after replacing it is the same as removing it outright |
| ContactsHook.ContactsState.constructor | frontend/src/hooks/useContacts.ts:9-12 | the list starts empty, not loading, without error |
| ContactsHook.ContactsState.FetchContacts | frontend/src/hooks/useContacts.ts:14-30 | without a logged-in email the list becomes [] and nothing is requested; otherwise the list becomes the response, or stays and the error is recorded; loading ends false |
| ContactsHook.ContactsState.CreateContact | frontend/src/hooks/useContacts.ts:32-48 | not logged in: rejects with "Usuário não autenticado" and changes nothing; success appends the new contact at the end; failure keeps the list, records the message and rethrows |
| ContactsHook.ContactsState.UpdateContact | frontend/src/hooks/useContacts.ts:50-68 | not logged in: rejects and changes nothing; success replaces by id; failure keeps the list, records the message and rethrows |
| ContactsHook.ContactsState.DeleteContact | frontend/src/hooks/useContacts.ts:70-86 | not logged in: rejects and changes nothing; success removes exactly the elements with the id and resolves true; failure keeps the list, records the message and rethrows |
| ContactFormView.WithField | frontend/src/components/ContactForm.tsx:67 | setting a field keeps the owner id |
| ContactFormView.WithFieldChangesOnlyThatField | frontend/src/components/ContactForm.tsx:67 | setting a field changes that field and no other |
| ContactFormView.InitialFormData | frontend/src/components/ContactForm.tsx:25-37 | each field is the initial value, or "" when absent; the owner id is passed through |
| ContactFormView.ContactForm.constructor | frontend/src/components/ContactForm.tsx:25-41 | initial fields, no errors, CEP not validated, not loading |
| ContactFormView.ContactForm.HandleChange | frontend/src/components/ContactForm.tsx:49-68 | a CEP edit invalidates the CEP; one shorter than 8 also clears street, district, city and state; any other edit changes only its field; a CEP edit always leaves the form consistent, any other edit keeps consistency |
| ContactFormView.ContactForm.ValidateCep | frontend/src/components/ContactForm.tsx:70-99 | nothing happens unless the CEP has 8 characters. A found CEP fills the address (each part defaulting to "") and validates. An unknown CEP records "CEP não encontrado"; a failed call records "Erro ao buscar CEP". Neither validates and neither touches the fields. Loading ends false. The three outcomes are named once, as `LookupApplied` |
| ContactFormView.ContactForm.MountEffect | frontend/src/components/ContactForm.tsx:43-47 | an initial CEP of 8 characters is looked up, with the same outcomes as a lookup on blur; otherwise nothing changes; the form stays consistent when its CEP field holds the initial CEP |
| ContactFormView.ContactForm.HandleCepBlur | frontend/src/components/ContactForm.tsx:101-103 | a current CEP of 8 characters is looked up, with the found, unknown and failed outcomes of the lookup; any other CEP changes nothing; a consistent form stays consistent |
| ContactFormView.OpenAndSave | frontend/src/components/ContactForm.tsx:25-47 | opening the form on a filled contact whose CEP has 8 characters and saving at once submits iff the mount lookup found the CEP |
| ContactFormView.ContactForm.HandleSubmit | frontend/src/components/ContactForm.tsx:105-124 | submits iff the five required fields are filled and the CEP is validated, the required check coming first; each refusal sets its general error; a failed submit sets "Erro ao salvar contato"; from a consistent form only an 8-character CEP is submitted |
| ContactFormView.EditThenRefetch | frontend/src/components/ContactForm.tsx:43-47 | after a CEP edit, a re-run of the effect on the same initial contact validates the initial CEP, and the save then goes through with the edited CEP, which no lookup checked |
| UserFormView.WithField | frontend/src/components/UserForm.tsx:25-28 | setting a field changes that field only |
| UserFormView.UserForm.constructor | frontend/src/components/UserForm.tsx:18-23 | name and email from the initial data, or "" |
| UserFormView.UserForm.HandleChange | frontend/src/components/UserForm.tsx:25-28 | only the named field changes |
| UserFormView.UserForm.HandleSubmit | frontend/src/components/UserForm.tsx:30-44 | errors are cleared first; submits iff name and email are non-empty; a rejection's message (or the fallback) becomes the general error |
| ContactListView.Initials | frontend/src/components/ContactList.tsx:30 | at most one character per part, each the first character of a non-empty part |
| ContactListView.InitialsAppend | frontend/src/components/ContactList.tsx:30 | initials distribute over concatenation of parts |
| ContactListView.EmptyPartsContributeNothing | frontend/src/components/ContactList.tsx:30 | the initials are those of the non-empty parts, exactly one character each |
| ContactListView.InitialsOfNonEmptyParts | frontend/src/components/ContactList.tsx:30 | with no empty part, one initial per part, each that part's first character, in order |
| ContactListView.GetInitials | frontend/src/components/ContactList.tsx:29-31 | exactly one character per non-empty space-separated part, in order, each the upper case of that part's first character |
| ContactListView.OneWordInitials | frontend/src/components/ContactList.tsx:29-31 | a one-word name has its upper-cased first letter as initials |
| ContactListView.NoLaterRowInEditMode | frontend/src/components/ContactList.tsx:76 | with distinct ids, once one row is in edit mode no later row is |
| ContactListView.AtMostOneInEditMode | frontend/src/components/ContactList.tsx:76 | with distinct ids, at most one row is rendered in edit mode |
| ContactListView.ContactList.constructor | frontend/src/components/ContactList.tsx:13 | no row is being edited |
| ContactListView.ContactList.HandleEdit | frontend/src/components/ContactList.tsx:15-17 | the edited id becomes the given id |
| ContactListView.ContactList.HandleCancelEdit | frontend/src/components/ContactList.tsx:19-21 | no row is being edited |
| ContactListView.ContactList.HandleUpdate | frontend/src/components/ContactList.tsx:23-27 | with no edited id (null or "") nothing is called; otherwise the update is called with that id and edit mode ends, unless the update rejects, which leaves edit mode and propagates |
| ContactsPageView.FilteredContacts | frontend/src/app/contacts/page.tsx:58-62 | all and only the contacts whose lower-cased name or email includes the lower-cased term, or whose phone includes the term; never more than the list |
| ContactsPageView.FilterKeepsOrder | frontend/src/app/contacts/page.tsx:58-62 | the filtered list is an order-preserving subsequence of the contacts |
| ContactsPageView.FilterSplitsOverRuns | frontend/src/app/contacts/page.tsx:58-62 | filtering two runs of contacts filters each in place |
| ContactsPageView.EmptyTermKeepsAll | frontend/src/app/contacts/page.tsx:58-62 | an empty search keeps every contact |
| ContactsPageView.ContactsPage.constructor | frontend/src/app/contacts/page.tsx:17-18 | the add form is closed and the search is empty |
| ContactsPageView.ContactsPage.Shown | frontend/src/app/contacts/page.tsx:58-62 | never more contacts than the list; all of them under an empty search |
| ContactsPageView.ContactsPage.SetSearchTerm | frontend/src/app/contacts/page.tsx:126 | the search term becomes the input |
| ContactsPageView.ContactsPage.SearchParamsEffect | frontend/src/app/contacts/page.tsx:20-29 | once auth has loaded with nobody logged in, nothing opens; otherwise `action=add` opens the add form |
| ContactsPageView.ContactsPage.HandleCreateContact | frontend/src/app/contacts/page.tsx:31-38 | a successful create appends the contact and closes the add form; a failure is swallowed and changes neither |
| ContactsPageView.ContactsPage.HandleUpdateContact | frontend/src/app/contacts/page.tsx:40-46 | the hook's update, with a failure swallowed |
| ContactsPageView.ContactsPage.HandleDeleteContact | frontend/src/app/contacts/page.tsx:48-56 | only a confirmed delete reaches the hook; a failure is swallowed |
| HomePageView.GetFirstName | frontend/src/app/home/page.tsx:19-22 | null iff the name is null or ""; otherwise the text before the first space |
| HomePageView.OneWordFirstName | frontend/src/app/home/page.tsx:19-22 | a name without spaces is its own first name |
| HomePageView.GetGreeting | frontend/src/app/home/page.tsx:24-29 | "Bom dia" iff hour < 12, "Boa tarde" iff 12 <= hour < 18, "Boa noite" iff hour >= 18 |
| HomePageView.RecentContacts | frontend/src/app/home/page.tsx:70 | the last min(5, n) contacts, newest first |
| HomePageView.GreetingName | frontend/src/app/home/page.tsx:81 | the first name when it is non-empty, otherwise the email's text before the first '@' |
| HomePageView.ComputeStats | frontend/src/app/home/page.tsx:41-48 | total = n, recent = min(5, n), this week = n |
| HomePageView.HomePage.constructor | frontend/src/app/home/page.tsx:13-17 | all counters start at 0 |
| HomePageView.HomePage.StatsEffect | frontend/src/app/home/page.tsx:37-50 | a non-empty list sets the stats to (n, min(5, n), n); an empty list keeps the previous ones |

## Left out

- ViaCEP: the HTTP lookup of the backend and of the contact form is a parameter. The backend takes a function from CEP to answer; the form takes the answer itself.
- The Prisma client: ids are a counter-based stand-in for generated uuids, and `createdAt`/`updatedAt` are not stored.
- The Prisma table's row order: `findFirst` and `findMany` are modelled in insertion order. The contracts promise only "some matching row" and "all and only the matching rows".
- The user store: src/repositories/user.repository.ts is not part of this model. `UserWorkflow.UserRepository` stands in for it: an exact email lookup and an append.
- Concurrency: each request and each client handler runs alone. The race between the duplicate check and the insert, and React's batching of state updates, are not modelled.
- Framework plumbing: the Fastify and zod wiring, swagger, CORS, the health route and src/routes/user.routes.ts.
- The status chosen for `reply.send(error)`: that is the framework's error handler, so the model keeps only the message (`SentError`).
- Header schema: the framework applies the POST and GET header schema (`required: ["email"]`, `format: "email"`, src/routes/contact.routes.ts:17-26 and 120-129) before the handler runs. It is stated as `ContactRoutes.HeaderSchemaAccepts`, but the handler models do not assume it, so they also cover a header the schema would have refused. `SchemaThenGuard` relates the schema to the guard.
- The authentication hook: src/routes/contact.routes.ts:8 registers `authMiddleware` as a pre-handler on every contact route; src/middlewares/auth.middleware.ts is not part of this model, so the handler models start after it has let the request through.
- JSON values other than strings in request bodies and in zod inputs.
- Case mapping covers ASCII letters only. JavaScript's full Unicode `toLowerCase`/`toUpperCase` is not modelled.
- Zod's email pattern and `Date.parse`: these are the `isEmail` and `parsesAsDate` parameters.
- Client network layer: frontend/src/app/api/api.ts and frontend/src/hooks/useUsers.ts are replaced by the outcome parameters of the handlers.
- Auth state: localStorage in frontend/src/contexts/AuthContext.tsx is left out, and the logged-in email is a constructor parameter of the hook.
- Rendering: JSX, routing, redirects (the logged-out branch of the contacts page's effect is modelled as opening nothing), `window.confirm` (a boolean parameter) and `console.error`.
- Time: the hour for the greeting is a parameter, and the unused week cutoff of the statistics is left out.
- ContactFormView.ContactForm.ValidateCep: only one lookup at a time is modelled, so overlapping lookups that finish out of order are not.
- ContactFormView.ContactForm.HandleSubmit: the `onSubmit` call is reduced to whether it rejects. What the parent does with the data is modelled by its own handlers.
