# Morphia query layer: the `$nin` validator and the update-target encoder

This project models two pieces of Morphia's query/update layer in Dafny and
proves properties about them.

- **`NotInOperationValidator`** decides whether a query value may be used with
  the not-in filter operator (`$nin`). It never throws. A null value, or a
  value whose class is not an `Iterable`, an array or a `Map`, is rejected by
  appending one `ValidationFailure` to a list the caller owns. In the model
  that list is the class `FailureList`, and `Validate` is a method that
  modifies it.
- **`OperationTarget`** pairs a path target with an update value. Its `encode`
  returns the raw value when there is no target. Otherwise it picks the stored
  value and wraps it in a one-entry document keyed by the target's translated
  path. The stored value is either the property's `PropertyHandler` encoding,
  the root written by the mapper's registry codec, or null.

Files:

- `java_values.dfy`: Java values (`null` or an object of a runtime class) and the class shapes the validators test.
- `mapping.dfy`: the mapping collaborators, kept as plain data and caller-supplied functions. These are mapped fields, entity and property models, cached codecs, path targets and the mapper.
- `not_in_operation_validator.dfy`: the validator, the caller's failure list, the singleton, and lemmas about one call and about several calls on one list.
- `operation_target.dfy`: the target/value holder, the specification function `EncodeOutcome`, the imperative `Encode`, and lemmas for each branch.
- `wrappers.dfy`: `Option`, standing in for Java's nullable references.

External pieces are modelled as follows:

- A value's rendering (`String.valueOf`) is a string field of the value.
- A class is its name plus its shape.
- `CollectionTypeValidator.typeIsIterableOrArrayOrMap` is the predicate `IsIterableOrArrayOrMap` over that shape. Its source is not part of this model. The validator tests show that lists, sets, maps and `int[]` pass and that a `String` does not.
- The codec registry and the `DocumentWriter` are the two functions of `Mapping.Mapper`. `codecFor` picks a codec for a runtime class. `writeRoot` is the root a fresh writer holds after that codec has encoded the value.
- A `PropertyHandler` is a codec that carries its `encode` function.

Two facts about the code are worth stating outright:

- `$nin` accepts any `Map` class.
- For a non-null value without a handler, `encode` stores the writer's root as it is; nothing is unwrapped.

## Model

| member | source | states |
|---|---|---|
| `NotInValidation.NinFailures` | morphia/src/main/java/dev/morphia/query/validation/NotInOperationValidator.java:35-42 | One validation yields at most one failure. It yields none exactly when the value is non-null and its class is iterable, an array or a map. A null value yields the null-value failure. Any other rejected value yields the failure naming that value. |
| `NotInValidation.NotInOperationValidator.Validate` | morphia/src/main/java/dev/morphia/query/validation/NotInOperationValidator.java:35-42 | The new failures list is the old list followed by `NinFailures(value)`. The old contents stay as a prefix, at most one entry is added, and the mapped field plays no part in the result. |
| `NotInValidation.FailureList.Add` | morphia/src/main/java/dev/morphia/query/validation/NotInOperationValidator.java:37 | Adding a failure appends it at the end of the caller's list. |
| `NotInValidation.NotInOperationValidator.GetOperator` | morphia/src/main/java/dev/morphia/query/validation/NotInOperationValidator.java:30-32 | The validator's operator is always `NOT_IN`. |
| `NotInValidation.NotInOperationValidatorStatics.constructor` | morphia/src/main/java/dev/morphia/query/validation/NotInOperationValidator.java:15 | The single instance is created once, with the class. |
| `NotInValidation.NotInOperationValidatorStatics.GetInstance` | morphia/src/main/java/dev/morphia/query/validation/NotInOperationValidator.java:25-27 | Every call returns that same instance. |
| `NotInValidation.NullValueRejected` | morphia/src/main/java/dev/morphia/query/validation/NotInOperationValidator.java:36-37 | A null value is rejected with exactly one failure. Its message is "For a $nin operation, value cannot be null." |
| `NotInValidation.NotCollectionMessageNamesValueAndClass` | morphia/src/main/java/dev/morphia/query/validation/NotInOperationValidator.java:38-40 | A non-null value that is not iterable, an array or a map is rejected with exactly one failure. Its message contains both the value's rendering and its class's `toString`. |
| `NotInValidation.NotInTestValues` | morphia/src/test/java/dev/morphia/query/QueryValidatorTest.java:101-111 | A list, an empty set, a `HashMap` and an `int[]` are accepted with no failure. A plain `String` (the case at lines 360-365) is rejected with one failure. |
| `NotInValidation.AfterOneMoreCall` | morphia/src/main/java/dev/morphia/query/validation/NotInOperationValidator.java:35-42 | One more call extends the list by exactly what one `Validate` appends, so `AfterCalls` is the list after the calls in turn. |
| `NotInValidation.ValidateInTurn` | morphia/src/main/java/dev/morphia/query/validation/NotInOperationValidator.java:35-42 | Two `Validate` calls on one list leave it exactly as `AfterCalls` describes. |
| `NotInValidation.SuccessiveCalls` | morphia/src/main/java/dev/morphia/query/validation/NotInOperationValidator.java:35-42 | Validating several values in turn on one list keeps the list's earlier contents. It appends exactly one failure per rejected value, in call order. |
| `NotInValidation.SuccessiveCallsKeepEarlierFailures` | morphia/src/main/java/dev/morphia/query/validation/NotInOperationValidator.java:35-42 | Over successive calls, earlier failures are never removed or reordered. The list grows by the number of rejected values, which is at most the number of calls. |
| `NotInValidation.FirstFailureIsFirstRejection` | morphia/src/main/java/dev/morphia/query/validation/NotInOperationValidator.java:35-42 | Starting from an empty list, the first failure is the one for the first rejected value. |
| `NotInValidation.NoRejectionNoFailure` | morphia/src/main/java/dev/morphia/query/validation/NotInOperationValidator.java:35-42 | When every value is accepted, successive validations leave the list unchanged. |
| `Mapping.EntityModel.GetPropertyModel` | morphia/src/main/java/dev/morphia/query/OperationTarget.java:48-52 | A property model is found exactly when the declaring class's model has a property of that Java field name, and the one found is that property's model. |
| `Query.OperationTarget.constructor` | morphia/src/main/java/dev/morphia/query/OperationTarget.java:22-25 | The object holds exactly the target and value it was given. |
| `Query.OperationTarget.GetTarget` | morphia/src/main/java/dev/morphia/query/OperationTarget.java:30-32 | Returns the target the constructor stored. |
| `Query.OperationTarget.GetValue` | morphia/src/main/java/dev/morphia/query/OperationTarget.java:37-39 | Returns the value the constructor stored. |
| `Query.OperationTarget.Encode` | morphia/src/main/java/dev/morphia/query/OperationTarget.java:41-64 | The imperative encoding, which reassigns `mappedValue` step by step, returns exactly `EncodeOutcome(target, value, mapper)`. |
| `Query.EncodeWithoutTarget` | morphia/src/main/java/dev/morphia/query/OperationTarget.java:42-44 | With a null target, the raw value comes back unchanged and no document wraps it. The mapper's codecs have no influence on the result. |
| `Query.EncodeIsOneEntryDocument` | morphia/src/main/java/dev/morphia/query/OperationTarget.java:63 | With a target, the result is a document with exactly one entry, keyed by the target's translated path. |
| `Query.EncodeWithHandler` | morphia/src/main/java/dev/morphia/query/OperationTarget.java:55-56 | When the cached codec is a `PropertyHandler`, the stored value is the handler's encoding of the raw value. This holds for a null value too, and the registry plays no part. |
| `Query.EncodeNullWithoutHandler` | morphia/src/main/java/dev/morphia/query/OperationTarget.java:57-63 | Without a handler, a null value is stored as null. |
| `Query.EncodeWithRegistryCodec` | morphia/src/main/java/dev/morphia/query/OperationTarget.java:57-61 | Without a handler, a non-null value is stored as the writer root that the registry codec for its runtime class produces. |
| `Query.EncodeWithoutPropertyModel` | morphia/src/main/java/dev/morphia/query/OperationTarget.java:45-54 | A null mapped field, or a field with no property model, has no cached codec. The handler branch is therefore never taken. |

## Left out

- `OperationValidator`, the superclass that dispatches on `getOperator()`, is not part of this model. Neither is `QueryValidator`, which drives the validators. Only `validate` and `getOperator` of the `$nin` validator are modelled.
- The `FilterOperator` enum is not part of this model. Its model lists only the constants the validator tests name.
- `CollectionTypeValidator` is not part of this model. Its test is modelled as a predicate over a class's shape, as described above.
- Failure messages are modelled as tagged failures. `Message` renders them with the source's literal format text. The value's own rendering and the class name are inputs, not computed.
- `Encode`: registry lookup is modelled as total. The exception a codec registry throws when it has no codec for a class is not modelled.
- `Encode`: the state of the `DocumentWriter` that the codec drives is not modelled; only the root it ends with is.
- `NotInOperationValidator`'s constructor is private in the source, so the class sees exactly one instance. Dafny has no static state: the model's constructor is public, and each `NotInOperationValidatorStatics` object makes its own instance. "Only one instance exists" is therefore not enforced. What the model proves is that `GetInstance` always returns the same stored instance.
- `PathTarget.translatedPath()` and `PathTarget.getTarget()` are computed by path resolution, which is not part of this model. Here they are stored fields of `PathTarget`, taken as given.
- `OperationTarget.toString` is presentation only and is not modelled.
- `UpdateOperations` is an interface with no implementation in the modelled code, so it is not modelled.
- `StageCodec` is a thin wrapper over the driver's writer, and `PreSave` is an annotation declaration. Neither is modelled.
- The test classes run against a live database or against classes that are not part of this model. They serve only as evidence for the value cases in `NotInTestValues`.
