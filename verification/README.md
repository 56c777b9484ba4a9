# lognormalizer in Dafny

A model of `InterfaSys\LogNormalizer\Normalizer`, the PHP class that turns any
value handed to a logger into a bounded tree that `json_encode` can render,
and then into a string.

- `normalize($data, $depth)` lets scalars through (floats after
  `normalizeFloat`) and otherwise asks, in order, `normalizeTraversable`,
  `normalizeDate`, `normalizeObject` and `normalizeResource`; the first
  non-null answer wins, and a value nobody claims becomes `[unknown(<gettype>)]`.
- Arrays and traversable objects keep at most `maxArrayItems - 1` entries,
  normalised at the same depth, and get a `"..."` sentinel when entries were
  dropped.
- Objects become `["[object] (<class>)", fields]`; the property array is
  normalised one level deeper only while `depth < maxObjectDepth`, otherwise
  the object is handed back as it is. Exceptions are expanded into
  class/message/code/file/trace/previous, along the whole `getPrevious` chain,
  at any depth.
- Resources become `"[resource] "` plus at most the first 40 characters of
  their id.
- `format` hands a string result back and otherwise JSON-encodes the tree and
  deletes `\u0000` escapes and collapses `\\` to `\`.

Modules:

| file | module | contents |
|---|---|---|
| wrappers.dfy | `Wrappers` | `Option` |
| decimal.dfy | `Decimal` | PHP int-to-string and its inverse |
| php_array.dfy | `PhpArray` | PHP arrays as ordered association lists, `$a[$k] = $v` as `Put` |
| values.dfy | `Values` | input values (`Value`, `Exception`, `FloatVal`) and normalised trees (`Norm`) |
| normalizer.dfy | `Normalizer` | the constructor, `normalize` and every strategy |
| traversal.dfy | `Traversal` | closed form of the array strategy, the item cap, the `foreach` as a loop |
| dispatch.dfy | `Dispatch` | what each kind of value normalises to |
| depth.dfy | `Depth` | the object-depth cap, on the tree `normalize` returns and on the calls it makes |
| exception_chain.dfy | `ExceptionChain` | shape of normalised exceptions, chain depth, lossless read-back |
| str_replace.dfy | `StrReplace` | PHP `str_replace` for one search string, and `explode`/`implode` |
| format.dfy | `Format` | the post-encoding cleanup and `format` |

PHP decides the kind of a value at run time. Here the kinds are the
constructors of `Value`, and each constructor is defined by the precedence of
the strategies: `TraversableObj` is any object implementing `\Traversable`
(even a `\DateTime` or `\Exception` subclass); `Date` is a non-traversable
`\DateTime`; `Exc` is an `\Exception`; `Obj` is every other object, including
`\Error` and `\DateTimeImmutable`; `Other` is what nothing claims, in practice
a closed resource. `Dispatch.OneClaimEach` shows that each kind is then
claimed by one strategy only.

Where the code does something other than what it evidently aims at, the
model follows the code:

- Negative infinity yields `"INF"`, not `"-INF"`. The `'-'` prefix at
  Normalizer.php:138-139 is dead: after the replacement, `$data < 0` compares
  the string `'INF'` with `0`, which is false
  (`Dispatch.NegativeInfinityLosesSign`).
- Past the depth limit the "fields" slot holds the object itself, because of
  `$response = $data` at Normalizer.php:220, not its property array:
  `Raw(Obj(...))`.
- When `json_encode` fails, `format` returns the empty string, although the
  docblock at Normalizer.php:66 announces `string|null`: `str_replace`
  receives `false` and converts it to `""`.
- The date format falls back to `"Y-m-d H:i:s"` whenever the argument is falsy
  (`if ($dateFormat)` at Normalizer.php:52), which for a string includes `"0"`.

## Model

| member | source | states |
|---|---|---|
| Normalizer.New | src/InterfaSys/LogNormalizer/Normalizer.php:49-57 | both limits are kept as given; a truthy date format is kept, a falsy one (null, "" or "0") is replaced by "Y-m-d H:i:s"; the stored format is always truthy |
| Normalizer.Default | src/InterfaSys/LogNormalizer/Normalizer.php:49 | the argument defaults give depth 2, 20 items and "Y-m-d H:i:s" |
| Normalizer.Sentinel | src/InterfaSys/LogNormalizer/Normalizer.php:179-180 | the sentinel text is "Over ", the decimal limit, " items, aborting normalization", and the number between them reads back as maxArrayItems |
| Dispatch.ScalarsUnchanged | src/InterfaSys/LogNormalizer/Normalizer.php:87-91 | null, booleans, integers, strings and finite floats come back as the same scalar, at any depth |
| Dispatch.NonFiniteFloats | src/InterfaSys/LogNormalizer/Normalizer.php:135-147 | NaN becomes "NaN", positive and negative infinity both become "INF" |
| Dispatch.NegativeInfinityLosesSign | src/InterfaSys/LogNormalizer/Normalizer.php:136-141 | negative infinity normalises exactly like positive infinity and never to "-INF" |
| Dispatch.OneClaimEach | src/InterfaSys/LogNormalizer/Normalizer.php:92-106 | at most one of the scalar filter and the four strategies claims a value, and none claims exactly the fall-through kind |
| Dispatch.TerminalKinds | src/InterfaSys/LogNormalizer/Normalizer.php:87-107 | a date becomes its rendering with the configured pattern, a resource its marker, an unclaimed value "[unknown(<gettype>)]", and an exception its expansion whatever the depth |
| Dispatch.ObjectShape | src/InterfaSys/LogNormalizer/Normalizer.php:213-230 | a plain object becomes ["[object] (<class>)", fields] with fields the normalised property array at depth + 1 below the limit and the untouched object from the limit on |
| Dispatch.ResourceMarker | src/InterfaSys/LogNormalizer/Normalizer.php:267-270 | a resource becomes "[resource] " plus the first 40 characters of its id, at most 51 characters, keeping a short id whole |
| Dispatch.NeverRawAtTop | src/InterfaSys/LogNormalizer/Normalizer.php:213-230 | the result of normalize is never itself an un-normalised value |
| Traversal.TruncatedExactly | src/InterfaSys/LogNormalizer/Normalizer.php:175-182 | entries are dropped exactly when there are at least maxArrayItems of them (at least one when the limit is below 1) |
| Traversal.TraversableMatchesReference | src/InterfaSys/LogNormalizer/Normalizer.php:157-187 | normalising an array or traversable object assigns the first min(n, maxArrayItems - 1) entries in order, values at the same depth, then the sentinel if entries were dropped |
| Traversal.PlainShape | src/InterfaSys/LogNormalizer/Normalizer.php:177-185 | with distinct keys other than "...", the result is the kept prefix in input order with its own keys and values normalised at the same depth, followed by the sentinel exactly when entries were dropped |
| Traversal.EntriesBounded | src/InterfaSys/LogNormalizer/Normalizer.php:175-182 | the result never has more entries than the input nor more than maxArrayItems (one when the limit is below 1); an empty input gives an empty array |
| Traversal.SentinelExactly | src/InterfaSys/LogNormalizer/Normalizer.php:178-181 | when entries were dropped, "..." maps to "Over <maxArrayItems> items, aborting normalization"; when none were and no key is "...", there is no "..." key |
| Traversal.NormalizeTraversableElement | src/InterfaSys/LogNormalizer/Normalizer.php:173-188 | the counting loop with its early exit builds exactly the capped array described by the closed form |
| Depth.NormalizeCapped | src/InterfaSys/LogNormalizer/Normalizer.php:219-229 | in the result of normalize(v, depth), objects have normalised fields while fewer than maxObjectDepth - depth object levels lie above them, and their fields are the raw object exactly at that level; arrays do not count as levels |
| Depth.RawOnlyInFields | src/InterfaSys/LogNormalizer/Normalizer.php:219-229 | in the result of normalize, an un-normalised value occurs only as the fields of an object pair: never as the result, an array value or a list element |
| Depth.CallDepthBounded | src/InterfaSys/LogNormalizer/Normalizer.php:219-226 | every call normalize makes on behalf of normalize(v, depth) gets a depth between depth and max(depth, maxObjectDepth) |
| Depth.FromRoot | src/InterfaSys/LogNormalizer/Normalizer.php:223-226 | from depth 0, the result has normalised object fields through maxObjectDepth object levels and raw fields at the next, and no call receives a depth above maxObjectDepth (above 0 for a negative limit) |
| ExceptionChain.ExceptionLayout | src/InterfaSys/LogNormalizer/Normalizer.php:242-258 | a normalised exception has the keys class, message, code, file, trace and, iff there is a previous exception, previous; file is "<file>:<line>", trace a one-element list, previous the same expansion of the cause |
| ExceptionChain.ChainFullyExpanded | src/InterfaSys/LogNormalizer/Normalizer.php:252-255 | previous entries nest exactly as deep as the exception has causes, without any depth limit |
| ExceptionChain.ExceptionRoundTrip | src/InterfaSys/LogNormalizer/Normalizer.php:242-258 | every getter's answer of every exception in the chain can be read back from the normalised form |
| ExceptionChain.FileLineRoundTrip | src/InterfaSys/LogNormalizer/Normalizer.php:247 | "<file>:<line>" splits back into file and line at its last colon, whatever colons the path holds |
| Decimal.IntRoundTrip | src/InterfaSys/LogNormalizer/Normalizer.php:180 | the decimal rendering of an integer reads back as that integer |
| PhpArray.Put | src/InterfaSys/LogNormalizer/Normalizer.php:179-184 | an assignment makes the key map to the new value and leaves every other key's value alone; an existing key keeps its place, a new one is appended |
| PhpArray.PutAllDistinct | src/InterfaSys/LogNormalizer/Normalizer.php:177-185 | assigning pairs with fresh distinct keys one by one appends them in order |
| StrReplace.ReplaceNeverLonger | src/InterfaSys/LogNormalizer/Normalizer.php:73 | replacing by a string no longer than the search string never lengthens the subject |
| StrReplace.ReplaceAbsent | src/InterfaSys/LogNormalizer/Normalizer.php:73 | a subject in which the search string does not occur is returned unchanged |
| StrReplace.ReplaceIsExplodeImplode | src/InterfaSys/LogNormalizer/Normalizer.php:73 | the left-to-right replacement equals splitting at the occurrences and joining with the replacement |
| Format.Cleanup | src/InterfaSys/LogNormalizer/Normalizer.php:72-73 | every `\u0000` is deleted first (split at the escapes, joined with nothing) and every `\\` in what remains is then collapsed to `\` (split, joined with one backslash); the result is never longer and text without a backslash is unchanged |
| Format.CleanupOrder | src/InterfaSys/LogNormalizer/Normalizer.php:73 | because the deletion runs first, the escaped backslash followed by `u0000` cleans up to a single backslash |
| Format.FormatResult | src/InterfaSys/LogNormalizer/Normalizer.php:68-77 | a string result of normalize is returned untouched; otherwise the result is `Format.Cleanup` of the encoding, no longer than it and equal to it when it has no backslash, or "" when encoding fails |

## Left out

- `json_encode` is foreign code: `Format` takes the encoder as a function parameter, `None` standing for its `false` result; the `@` warning suppression has no counterpart.
- `DateTime::format`, `getTraceAsString`, `get_class`, `(string)$resource` and the property copy made through `\ArrayObject` are carried as data in the input value rather than computed.
- Infinity on PHP 8: after the replacement by `'INF'`, `is_nan('INF')` throws a `TypeError` on PHP 8 and only warns on PHP 7; the model returns "INF", the PHP 7 outcome.
- `format` overwrites its by-reference argument; the model returns the result instead.
- Cyclic arrays and object graphs: an inductive datatype cannot express them, and the PHP code has no guard against them.
- Integer width: PHP integers are 64-bit; codes, line numbers and the limits are unbounded integers here, which changes nothing the model states.
- Floats: a finite float is a real number; negative zero is not told apart, which does not matter since finite floats pass through unchanged.
- Array keys are assumed canonical: PHP's conversion of numeric-string, float, bool and null keys yielded by a traversable into integer or string keys is not modelled.
- A previous exception that is an `\Error` rather than an `\Exception` would make `normalizeException`'s type hint throw; the chain in the model holds exceptions only.
- `getCode` returning a non-integer (some PDO exceptions use string codes) is not modelled.
- Iteration of a traversable that throws, and `DateTime::format` failing, are not modelled.
- Traversal.SentinelExactly: the absence of `"..."` without truncation is stated only for inputs with no repeated key and no `"..."` key; otherwise an input `"..."` entry simply stays, as `PhpArray.Put` describes.
- Depth.FromRoot: its call-depth half rests on `Depth.CallDepthBounded` and so speaks of the same ghost trace; its half about the result comes from `Depth.NormalizeCapped`.
- Depth.CallDepthBounded: the calls are traced by a separate ghost function that follows `Normalize`'s recursion, not by instrumenting `Normalize` itself; the same cap stated on `Normalize`'s result is `Depth.NormalizeCapped`.
- Strings: PHP strings are byte strings and `substr` counts bytes, while the model's strings are sequences of characters. This makes no difference to the ASCII `"Resource id #N"` text or to the ASCII patterns the cleanup rewrites.
