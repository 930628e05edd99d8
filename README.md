# Mettl API client for PHP: request signing, request rule and endpoint recipes

This project models the logic of the `Mettl` PHP class (`mettl.class.php`),
a client for the Mettl REST API (v1), and proves properties of it. Three
parts of the class are modelled:

- **`signParameters`** adds the URL-encoded public key as `ak` and the
  timestamp as `ts` to the parameter array. It sorts the array in place by
  key with `uksort` and `strcasecmp`. It then signs the upper-cased verb, the
  URL, a newline and the sorted values joined by newlines, and stores the
  signature under `asgn`. `Signing.SignParameters` is a method that follows
  these steps on a sequence of key/value pairs. The sort is an in-place
  insertion sort on an `array` (`KeySort.SortByKey`), proved equal to the
  functional reference `KeySort.KeySorted`. Both keep entries whose keys are
  equal up to case in input order, as PHP's sorts have done since PHP 8.0.
  The model follows PHP 8.2 or later, where `strcasecmp` returns -1, 0 or 1.
- **The request rule inside `request`** decides what cURL is told:
  - whether the query goes into the URL after `?`;
  - whether it is sent as the body;
  - whether an explicit PUT or DELETE method is set.
  `Requests.BuildRequest` is this rule as a pure function that returns a
  description of those options.
- **The eleven endpoint methods.** `Endpoints.Recipe` gives each one's verb,
  URL template and parameter array. `Endpoints.Invoke` runs the pipeline:
  recipe, signing, request, transfer, and decoding unless the response is
  falsy. `Endpoints.Resolve` is the API's route table, an independent
  reference definition: every recipe resolves back to the call that made it,
  as long as its path arguments hold no `/`.

The models of the PHP primitives:
- A PHP array is a sequence of `(key, value)` pairs with distinct keys.
  Assigning an existing key replaces its value in place; assigning a new key
  appends it (`ParamList.Put`).
- A Dafny `string` stands for the PHP byte string that holds its UTF-8
  encoding.
- `rawurlencode` keeps the unreserved characters of section 2.3 of RFC 3986
  and writes every other byte as `%XX` (`PercentEncoding.PercentEncode`).
- `strtolower` and `strtoupper` change only ASCII letters.
- `strcasecmp` compares the lower-cased strings and returns -1, 0 or 1.
- PHP truthiness of a string: only `""` and `"0"` are false.

Outside code is taken as parameters:
- HMAC-SHA1 followed by base64 is `sign: (key, message) -> signature`.
- The clock (`time()`) is `now`.
- `http_build_query` is `buildQuery`.
- The cURL transfer is `transport`. It returns the body, or `""` when the
  transfer fails, which is what `utf8_encode(false)` gives.

## Model

| member | source | states |
|---|---|---|
| Signing.SignParameters | mettl.class.php:83-102 | The signed array keeps every caller entry whose key is not `ak`, `ts` or `asgn`, and gains no other entry. `ak` holds the encoded public key and `ts` the timestamp. The array is sorted case-insensitively by key and is exactly the reference sort of the array with `ak`/`ts` set. `asgn` is the signature of the upper-cased verb, the URL and the sorted values, and is appended after signing. The result equals the pure `Signed` on every input, so equal inputs give equal signatures. |
| Signing.Signed | mettl.class.php:83-102 | The reference for signParameters. The signed array always holds `asgn`. For distinct caller keys it has distinct keys, holds `ak` and `ts` with the encoded key and timestamp, and holds exactly the caller's other entries. |
| Signing.SignedAddsThree | mettl.class.php:89-99 | For distinct caller keys none of which is `ak`, `ts` or `asgn`, the signed array keeps every caller entry, has distinct keys, and has exactly three more entries. |
| Signing.EmptyParamsStringToSign | mettl.class.php:85-95 | With no parameters, the string to sign is the upper-cased verb, the URL, `"\n"`, the encoded public key, `"\n"` and the timestamp. |
| Signing.EmptyParamsSorted | mettl.class.php:89-92 | With no parameters, the sorted array is exactly `ak` followed by `ts`. |
| Signing.CaseInsensitiveOrder | mettl.class.php:92 | Sorting `{"B": "x", "a": "y"}` puts `a` before `B`. |
| Signing.StringToSignCarriesValues | mettl.class.php:94-95 | After the verb/URL line, the string to sign splits at newlines into exactly the values, in sorted order (keys never appear), when no value contains a newline. |
| Signing.AuthFieldsEntries | mettl.class.php:89-90 | Setting `ak` and `ts` keeps the keys distinct. The entries are then the two fields plus every other caller entry. |
| KeySort.SortByKey | mettl.class.php:92 | uksort with strcasecmp in place: the array ends exactly as the reference sort of the original, so it is sorted by key and a permutation of the original. |
| KeySort.InsertInPlace | mettl.class.php:92 | One insertion step: `a[..i+1]` becomes the reference insertion of the old `a[i]` into the old `a[..i]`, and `a[i+1..]` is unchanged. |
| KeySort.SiftDown | mettl.class.php:92 | The loop of an insertion step: the old `a[i]` lands at the returned `j`. `a[..j]` is unchanged, `a[j+1..i+1]` is the old `a[j..i]`, and the rest is unchanged. The entry before `j` does not come after the moved entry; every entry it passed does. |
| KeySort.InsertAfter | mettl.class.php:92 | Inserting into a sorted array keeps it sorted, and adds exactly the one entry. |
| KeySort.InsertAfterAt | mettl.class.php:92 | The insertion puts the entry right after the last entry that does not come after it. Every entry whose key ties with it therefore stays in front of it. |
| KeySort.KeySorted | mettl.class.php:92 | The reference sort is sorted by case-insensitive key and is a permutation of its input. |
| KeySort.SortedUnique | mettl.class.php:92 | Two sorted permutations of an array whose keys differ by more than case are equal, so uksort has exactly one possible result. |
| KeySort.CaseDistinctPermutation | mettl.class.php:92 | Reordering keeps keys case-insensitively distinct. |
| PhpString.CaseCompare | mettl.class.php:92 | strcasecmp gives -1, 0 or 1, and 0 exactly when the strings are equal after lower-casing. |
| PhpString.CaseCompareFlip | mettl.class.php:92 | Swapping strcasecmp's arguments negates its result. |
| PhpString.CaseCompareTransitive | mettl.class.php:92 | strcasecmp is transitive as an order, so the key order is a total preorder. |
| PhpString.UpperOfLower | mettl.class.php:85 | Upper-casing a lower-cased verb gives the same result as upper-casing the original verb. |
| PhpString.SplitJoin | mettl.class.php:94 | `implode` with a separator that no item contains is undone by splitting at that separator. |
| PhpString.IntToDecimalRoundTrip | mettl.class.php:87-90 | The decimal form PHP writes for an integer (the timestamp, limit, offset) reads back as the same integer. |
| PercentEncoding.PercentEncode | mettl.class.php:89-90 | rawurlencode output consists only of unreserved characters and `%`. |
| PercentEncoding.DecodeEncode | mettl.class.php:89-90 | rawurldecode of rawurlencode gives back exactly the string's bytes, so the encoding loses nothing. |
| PercentEncoding.EncodeIdentityIff | mettl.class.php:89-90 | rawurlencode leaves a string unchanged if and only if every character of it is unreserved. It never makes a string shorter. |
| PercentEncoding.DecimalUnchanged | mettl.class.php:90 | Encoding the timestamp leaves it as its decimal form. |
| ParamList.Put | mettl.class.php:89-99 | Array assignment: an existing key keeps its position and gets the new value. A new key is appended. Distinct keys stay distinct. Exactly the assigned pair and the other keys' pairs remain. |
| ParamList.LookupFinds | mettl.class.php:89-99 | In an array with distinct keys, looking up an entry's key gives its value. |
| ParamList.PermutationKeepsDistinct | mettl.class.php:92 | Sorting keeps the keys distinct. |
| Requests.EffectiveMethod | mettl.class.php:57-67 | libcurl's choice of HTTP method, taken as given: a custom method wins. Otherwise the method is POST exactly when there is a body or the POST option is on, and GET otherwise. |
| Requests.BuildRequest | mettl.class.php:45-67 | The verb is compared in lower case. The URL becomes `url?query` if and only if the query is truthy and the verb is get or delete. There is a body if and only if the verb is post or put, and then it is the query and the URL is unchanged. The POST option is set if and only if the verb is post. A custom method is set if and only if the verb is put or delete. |
| Requests.SentMethodIsSignedVerb | mettl.class.php:59-67 | For get, post, put and delete, cURL uses the upper-cased verb, which is the verb that was signed. |
| Requests.QuerySentOnce | mettl.class.php:48-64 | For the four verbs, a truthy query reaches the server exactly once: in the URL or as the body, never both. |
| Requests.OtherVerbDropsParameters | mettl.class.php:50-67 | Any other verb sends a plain GET to the bare URL, and no parameter reaches the server. |
| Endpoints.Recipe | mettl.class.php:112-388 | Each endpoint's verb is get, post or delete. Its URL lies under `http://api.mettl.com/v1`. Its parameters have distinct keys, all from the endpoint key set. |
| Endpoints.ListDefaults | mettl.class.php:112-122 | The list endpoints default to limit 20, offset 0, sort `createdAt`, order `desc`. The candidates of a schedule sort by `testStartTime` instead. |
| Endpoints.Decode | mettl.class.php:129-132 | The method returns false exactly when the response is `""` or `"0"`, and otherwise the decoded body. |
| Endpoints.RecipeResolves | mettl.class.php:112-388 | Path arguments are substituted verbatim. The route table maps every recipe back to the same endpoint and arguments, as long as no path argument contains `/`. The table accepts only the exact parameters each endpoint sends: none for the get-one, get-schedules-of-an-assessment and delete endpoints, exactly `sc` or `rd` for the two posts, exactly the four list keys for the lists. |
| Endpoints.SlashInArgumentCollides | mettl.class.php:140-178 | Without that condition, two different calls make the same request: assessment `x/schedules` and the schedules of assessment `x`. |
| Endpoints.RecipeCaseDistinct | mettl.class.php:89-92 | An endpoint's keys with `ak` and `ts` never differ only by case. |
| Endpoints.RecipeSortUnique | mettl.class.php:89-92 | Every arrangement of an endpoint's signed parameters sorted by key is the reference sort, so its signature does not depend on how the sort breaks ties (as before PHP 8.0). |
| Endpoints.SignedRecipe | mettl.class.php:124-125 | Signing an endpoint's parameters keeps them all and adds exactly three entries. |
| Endpoints.SentRequestShape | mettl.class.php:45-67 | cURL uses the recipe's verb in upper case. A post sends the query as the body, with a parameter count of the recipe's count plus three. Get and delete append a truthy query to the URL and send no body. |
| Endpoints.Invoke | mettl.class.php:112-132 | An endpoint method sends exactly the request built from the signed recipe. It returns false or the decoded response. |

## Left out

- The cURL transfer (`curl_init`, `curl_setopt`, `curl_exec`, `curl_close`) is network I/O. It is the `transport` parameter.
- `print_a($url)` and `global $site` are left out: a debugging call to a function defined elsewhere, and a global the class never uses.
- HMAC-SHA1 and base64 are the `sign` parameter. Cryptographic properties are not modelled.
- `time()` is the `now` parameter.
- `http_build_query` is the `buildQuery` parameter. Only whether its result is truthy matters to the request rule.
- `json_encode`, `json_decode` and `utf8_encode` are library serialisers:
  - the `sc` and `rd` payloads are the strings `json_encode` produced;
  - a decoded response is represented by its body.
- The constructor and `newInstance` only store the credentials array. `Credentials` holds its two entries. A credentials array without `public_key` or `private_key` is not modelled.
- The unused local `$ret = $params` in `signParameters` has no effect and is not modelled.
- PhpString.CaseCompare: does not model strcasecmp's comparison of raw bytes. It compares code points after ASCII lower-casing, which gives the same sign because UTF-8 preserves code-point order; this is not proved here.
- uksort's own algorithm (a hybrid of insertion sort and quicksort) is not modelled step by step. `KeySort.SortByKey` is an insertion sort; it gives the same order because both are stable sorts by the same key order.
- Requests.EffectiveMethod: libcurl's choice of method from the options is an assumption about libcurl, not proved. The method-related rows (`SentMethodIsSignedVerb`, `OtherVerbDropsParameters`, `SentRequestShape`) rest on it.
- Endpoints.Recipe: limit and offset are taken as integers and written in decimal. Other PHP types passed for them are not modelled.
- PHP's conversion of numeric string keys to integer keys is not modelled. The keys used here (`limit`, `offset`, `sort`, `sort_order`, `sc`, `rd`, `ak`, `ts`, `asgn`) are never numeric.
- `Endpoints.Resolve` is a reference route table for the API and does not come from the class. It stands in for the server's routing.
