# fu-marketplace-api entity rules in Dafny

This project models the entity-level rules of two ORM models of the marketplace backend:

- **Item** (`models/item.js`):
  - the attribute declarations: NOT NULL, `len` and `min` rules, and the default status FOR_SELL (1);
  - the hooks that schedule re-indexing of the owning shop and deletion of image versions after create, update and destroy;
  - the `toJSON` projection that drops the timestamps.
- **User** (`models/user.js`):
  - the attribute declarations, including the unique e-mail;
  - the `toJSON` projection that hides the password, timestamps, role flags and token watermark;
  - the hashing hooks `beforeCreate`/`beforeUpdate`;
  - `verifyPassword` and `signOutAll`.

An instance is its attribute dictionary: a `map<string, Value>`, where `Value` is a JavaScript value (`JsValue.Value`).
The attribute declarations are data (`Schema.Column` tables).
One generic validator (`Schema.Violations`) turns such a table into the set of validation errors of an instance.
`ItemModel.ValidItem` and `UserModel.ValidUser` define validity attribute by attribute, independently of that validator.
Lemmas prove that the two agree.

Hooks that call foreign services return the effects they schedule (`ItemModel.Effect`): `IndexShop(shopId)` and `DeleteImages(versions)`.
The hashing primitive, its comparison and the e-mail syntax rule are function parameters (`hash`, `compare`, `isEmail`).
`User` is a class, because its hooks and `signOutAll` assign fields of the instance.
It holds the current values and the values last persisted, which is what `changed('password')` compares.
`UserTable` holds the stored rows and keeps the declared constraints as its invariant: every row is valid and no two rows share an e-mail.

Two facts about the code shape the model:
- An item's `afterDestroy` calls `indexShopById` (models/item.js:81), which re-indexes the shop rather than removing it from the index.
- models/user.js declares no length rule on `password` or on `fullName`, so none is modelled. A `fullName` of `""` is therefore valid here, although test/features/admin-manage-user.js:94-102 expects it to fail with `validation_len_failed`.

## Model

| member | source | states |
|---|---|---|
| `Schema.ColumnViolations` | models/item.js:19-31 | a null or missing value gives exactly one NotNull error on a NOT NULL attribute and no error otherwise, so no validator runs on it; a present value gives exactly one error per declared validator it fails, and nothing else |
| `Schema.Violations` | models/item.js:18-64 | the errors of an instance are exactly the union of every declared attribute's errors: every attribute's errors are collected, not only the first failing one, and nothing else is reported |
| `Schema.NoViolationsIffEachColumn` | models/item.js:18-64 | an instance has no validation error iff each declared attribute passes its own declaration |
| `Schema.ColumnOkIff` | models/item.js:19-42 | an attribute with at most one validator passes iff its null rule holds and a present value passes that validator |
| `Schema.ApplyDefaults` | models/item.js:43-47 | filling in defaults keeps every supplied key and every supplied value that is not undefined, adds only attributes that declare a default, and leaves a key no declaration names as supplied |
| `Schema.ApplyDefaultsFillsDefaults` | models/item.js:43-47 | when the declared names are distinct, an attribute that was not supplied and declares a default takes that default |
| `ItemModel.ItemViolations` | models/item.js:18-64 | every item error is about one of the ten declared item attributes |
| `ItemModel.AllColumnsOkIff` | models/item.js:18-64 | all ten item attributes pass iff the item satisfies `ValidItem` |
| `ItemModel.ItemValidIff` | models/item.js:19-64 | an item has no validation error iff its name is a string of length 1..50; its description is absent or null or a string of length 1..125; its price is a number of at least 1; and sort, status, categoryId and shopId are non-null |
| `ItemModel.NoDefaultsKeepAttrs` | models/item.js:18-64 | attributes without a declared default are never filled in |
| `ItemModel.ItemColumnsDefaults` | models/item.js:43-47 | among the item declarations only status has a default: a missing status becomes FOR_SELL (1) and nothing else changes |
| `ItemModel.Build` | models/item.js:43-47 | a new item without a status gets FOR_SELL (1) and nothing else changes; a supplied status, even null, is kept |
| `ItemModel.UndeclaredStatusIsValid` | models/item.js:12-47 | validation does not restrict status to the declared FOR_SELL (1) and NOT_FOR_SELL (0): an item with status 2 is valid |
| `ItemModel.AfterCreate` | models/item.js:67-70 | `afterCreate` schedules `IndexShop(item.shopId)` iff status is FOR_SELL; it schedules at most that one effect, and nothing for NOT_FOR_SELL |
| `ItemModel.AfterUpdate` | models/item.js:71-73 | `afterUpdate` schedules exactly one effect, `IndexShop(item.shopId)` |
| `ItemModel.NewItemIndexedByDefault` | models/item.js:43-70 | an item created without a status is indexed at once, because it defaults to FOR_SELL |
| `ItemModel.HasImageVersions` | models/item.js:77 | the destroy guard, truthiness of `imageFile` and an array test on its `versions`, holds exactly when `imageFile` is an object whose `versions` is an array |
| `ItemModel.AfterDestroy` | models/item.js:74-84 | `afterDestroy` schedules one or two effects; the last is always `IndexShop(item.shopId)`; there are two iff the guard holds, and then the first is `DeleteImages(imageFile.versions)` |
| `Projection.Omit` | models/item.js:100-102 | the projection has exactly the keys of the instance minus the ignored ones, with the same values |
| `Projection.DeleteEach` | models/item.js:100-102 | deleting each ignored attribute in turn leaves exactly the non-ignored keys with unchanged values |
| `Projection.OmitIdempotent` | models/item.js:100-102 | projecting a projected dictionary changes nothing |
| `Projection.OmitFixesProjected` | models/item.js:100-102 | a dictionary with no ignored key is its own projection |
| `ItemModel.PublicView` | models/item.js:7-10 | the public item has neither `updatedAt` nor `createdAt`; it keeps every other attribute with its value and has no other key |
| `ItemModel.ToJSON` | models/item.js:97-105 | the item's JSON has neither `updatedAt` nor `createdAt`; it has every other key of the item with its value unchanged, and no other key |
| `ItemModel.PublicViewIdempotent` | models/item.js:97-105 | projecting an already projected item changes nothing |
| `UserModel.UserViolations` | models/user.js:14-40 | every user error is about one of the six declared user attributes |
| `UserModel.AllColumnsOkIff` | models/user.js:14-40 | all six user attributes pass iff the user satisfies `ValidUser` |
| `UserModel.UserValidIff` | models/user.js:15-30 | a user has no validation error iff the e-mail is a string that passes the e-mail rule and password and fullName are non-null |
| `UserModel.PublicView` | models/user.js:11 | the public user never has `password`, `updatedAt`, `createdAt`, `seller`, `admin` or `acceptTokenAfter`; it keeps every other attribute with its value and has no other key |
| `UserModel.PublicViewIdempotent` | models/user.js:60-66 | projecting an already projected user changes nothing |
| `UserModel.User.ToJSON` | models/user.js:60-66 | the user's JSON lacks every hidden attribute, keeps every other attribute unchanged, and has no other key |
| `UserModel.HashPassword` | models/user.js:42-46 | hashing succeeds iff the password is a string; it then replaces the password with `hash(password)` and keeps every other attribute |
| `UserModel.RehashIfChanged` | models/user.js:47-52 | the update rule leaves the dictionary as it is when the password equals the persisted one; otherwise it replaces a string password with its hash and fails on a non-string one; no other attribute ever changes, so the password changes only through `hash` |
| `UserModel.User.Changed` | models/user.js:48 | only a present attribute can have changed, and an instance that equals its persisted values has no change |
| `UserModel.User.BeforeCreate` | models/user.js:42-46 | `beforeCreate` always replaces a string password with its hash; a password that is not a string fails the hook and nothing changes |
| `UserModel.User.BeforeUpdate` | models/user.js:47-52 | `beforeUpdate` leaves the instance untouched when the password did not change, and otherwise replaces it with its hash |
| `UserModel.VerifyPassword` | models/user.js:67-69 | verification gives an answer iff both the input and the stored hash are strings, and the answer is `compare(input, stored hash)`; a missing or non-string one is an error |
| `UserModel.VerifyAfterCreate` | models/user.js:42-69 | if `compare(p, hash(p))` holds for every `p`, a user created with plain text `p` verifies `p` |
| `UserModel.VerifyAfterUpdate` | models/user.js:47-69 | under the same axiom, a user whose password was changed to `p` verifies `p` after `beforeUpdate` |
| `UserModel.VerifyUnchangedPassword` | models/user.js:47-69 | when the password did not change, `beforeUpdate` keeps the instance, so verification answers as before |
| `UserModel.User.SignOutAll` | models/user.js:70-72 | `signOutAll` sets and persists `acceptTokenAfter` to the given time and changes no other attribute |
| `UserModel.SignUpThenSignOutAll` | models/user.js:42-72 | a user created with plain text `p`, then loaded, signed out everywhere and passed through `beforeUpdate`, still verifies `p` |
| `UserModel.UserTable.Create` | models/user.js:15-46 | creation keeps the table valid and its e-mails distinct. It reports the validation errors when there are any. It fails if hashing is refused or the e-mail is already stored. Otherwise it appends the row with the hashed password, and it changes nothing on failure |

## Left out

- `socket-server.js` is not part of this model: server creation, socket.io, the Redis adapter and rooms are transport plumbing.
- bcrypt is reduced to the parameters `hash` and `compare`. The salt, the number of rounds read from the environment and the promise wrappers are not modelled. `hash` is a function of the plain text alone, so two hashes of one password are equal here, while real salted hashes differ.
- The search-index and image-uploader services are represented only by the effects the hooks return. The concurrency of `Promise.all` and the failure of those calls are not modelled.
- Associations (`belongsTo`) and the `define` machinery are left out. The ORM's validation, hook and save pipeline is not part of this model.
- `UserModel.UserTable.Create` runs validation before `beforeCreate`, which is the ORM's order as far as the model assumes. It leaves out timestamps and ids.
- Updating a stored row, including re-checking e-mail uniqueness on update, is not modelled.
- The `isEmail` validator's syntax is library behaviour and is the parameter `isEmail`.
- The `type:` of each column (STRING, INTEGER, JSON, BOOLEAN, DATE; models/item.js:20-62, models/user.js:16-38) is not modelled. `Schema.Column` has no type, so an array or object in a STRING column such as `image` or `fullName` passes validation. Whether the ORM's schema check refuses such values is ORM behaviour, which lies outside models/item.js and models/user.js.
- `Schema.ApplyDefaults` keeps every supplied key, including keys that are not declared attributes. Whether the ORM drops undeclared keys when it builds an instance is not modelled.
- Attributes that the admin tests use but models/user.js does not declare (room, phone, gender, identityNumber, banned) have no rules here. They pass through the projection unchanged.
- Sequelize's coercion of values is not modelled. A value of the wrong JavaScript kind for `len`, `min` or `isEmail` fails that validator. Numbers are integers; NaN and fractions are not modelled.
- Errors are a set, so the order in which the ORM reports them is not modelled.
- `ItemModel.ToJSON` treats `this.get()` as a copy of the item's attributes. If the ORM returns its own dictionary, the deletions also strip the timestamps from the instance itself; that in-place effect is not modelled.
- `UserModel.User.ToJSON` treats `this.get()` as a copy of `dataValues`. If the ORM returns its own dictionary, the deletions also strip the password, timestamps, role flags and watermark from the instance itself; that in-place effect is not modelled, and `dataValues` is left unchanged.
- `UserModel.User.SignOutAll`: the ORM's `update` also refreshes `updatedAt` and runs validation and `beforeUpdate`; the model sets and persists only `acceptTokenAfter`.
- `UserModel.User.BeforeUpdate`: `changed('password')` is modelled as "differs from the last persisted value"; the ORM's own change-tracking flags are not modelled.
- Shop review gating and upsert, role assignment (`setRoles`), the password-change endpoint, and the 440 check of a token against `acceptTokenAfter` are not modelled. Their implementations (shop model, routes, middleware) are not part of this model.
- `MAXIMUM_IMAGE_SIZE` is not modelled; it is a constant that nothing in models/item.js reads.
