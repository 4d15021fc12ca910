# Registration form input handling, modelled in Dafny

This project models the input handling of a small NGO website's
registration form ("cadastro"), as written in `js/main.js` and
`js/validation.js`:

- **CPF validation** (`validateCPF`). The CPF (Cadastro de Pessoas
  Físicas) is the Brazilian 11-digit personal tax number. The validator
  strips the non-digits. It rejects anything that is not eleven digits or
  is one digit repeated eleven times. It then compares the two modulo-11
  check digits with digits 10 and 11. `Cpf.IsValidCpf` states the answer;
  `Cpf.ValidateCpf` runs the two summing loops as the handler does and is
  proved to give that answer.
- **Progressive input masks** for the CPF, phone and CEP (postal code)
  fields. Each mask strips the non-digits and then applies single-match
  regex rewrites. Each rewrite is modelled by what the regex engine does:
  the leftmost match, the `^`/`$` anchors, and greedy `{1,2}`. Each
  composed mask is proved equal to a layout given by cases on the number
  of digits. `js/validation.js` repeats the same rewrites line for line, so
  one set of functions models both files.
- **CPF messages**: which message the CPF field shows after a keystroke
  and after it loses focus.
- **Submission**. `js/main.js` runs every check and appends one record to
  the `registrations` list only when all of them pass. `js/validation.js`
  appends unconditionally. The list is a `seq` field of the class
  `Registration.RegistrationStore`. The browser's `checkValidity()`
  answers are boolean inputs.
- **Two page helpers**: the choice of the first page from the address
  bar, and the project card template `createProjectCard`.

Two behaviours of the masks are easy to miss:

- The CPF mask does not truncate extra digits. Twelve digits become
  `123.456.7890-12` (`Masks.MaskCpfNoTruncation`). Past eleven digits the
  keystroke handler hides the message and the blur handler flags the value
  (`Feedback.BlurCatchesExtraDigits`).
- Nine phone digits become `(11) 987-6543`, because the dash is anchored
  four characters from the end (`Masks.ShortInputExamples`).

Modules: `Digits` (digit stripping, `digits.dfy`), `Cpf` (`cpf.dfy`),
`Masks` (`masks.dfy`), `Feedback` (`feedback.dfy`), `Registration`
(`registration.dfy`), `Routing` (`routing.dfy`) and `Cards` (`cards.dfy`).

## Model

| member | source | states |
|---|---|---|
| `Digits.Strip` | js/main.js:153 | Removing the non-digits leaves only digits, and never lengthens the string. |
| `Digits.StripMembers` | js/main.js:153 | A character is in the stripped string iff it is a digit of the input. |
| `Digits.DigitValue` | js/main.js:160 | `parseInt` of a one-digit substring is a value from 0 to 9. |
| `Cpf.CheckDigit` | js/main.js:162-165 | `(sum * 10) % 11`, with 10 and 11 mapped to 0, is a single digit (0..9). |
| `Cpf.WeightedSum` | js/main.js:159-161 | The sum of digit i times (top − i) over the first n digits; it is 0 iff those digits are all zero. Its explicit form is `Cpf.FirstSumClosedForm` and `Cpf.SecondSumClosedForm`. |
| `Cpf.IsValidCpf` | js/main.js:152-181 | The verdict of `validateCPF`; an accepted value has eleven digits, not all equal. `Cpf.ValidCpfClosedForm` gives it in closed form. |
| `Cpf.CheckDigitTextbook` | js/main.js:173-176 | The `* 10` form equals the textbook rule: 0 when sum mod 11 is below 2, otherwise 11 minus sum mod 11. |
| `Cpf.ValidateCpf` | js/main.js:152-181 | The loop-based validator answers exactly `IsValidCpf`. By the contract of `IsValidCpf`, it is therefore false whenever the stripped input is not eleven digits long, or its eleven digits are all equal. |
| `Cpf.FirstSumClosedForm` | js/main.js:159-161 | The first loop's sum is 10·d1 + 9·d2 + … + 2·d9. |
| `Cpf.SecondSumClosedForm` | js/main.js:170-172 | The second loop's sum is 11·d1 + 10·d2 + … + 2·d10. |
| `Cpf.ValidCpfClosedForm` | js/main.js:153-180 | Both directions: accepted iff there are eleven digits, not all equal, d10 is the check digit of the first weighted sum, and d11 is the check digit of the second. |
| `Cpf.VerdictIgnoresNonDigits` | js/main.js:153 | Two inputs with the same digits get the same verdict. |
| `Cpf.AcceptsKnownValid` | js/main.js:157-180 | Any input whose digits are 52998224725 has check digits 2 and 5 and is accepted. |
| `Cpf.RejectsWrongSecondDigit` | js/main.js:166-179 | Digits 12345678900: the first check digit 0 matches, the second is 9 where the number has 0, so the input is rejected. |
| `Cpf.RejectsRepeatedDigit` | js/main.js:154-156 | Eleven zeros pass both checksums and are still rejected by the repeated-digit test. |
| `Masks.FirstRun` | js/main.js:187-188 | Leftmost-match search: the found position starts a run of k digits, no earlier position does, and None means no position does. |
| `Masks.DotAfterFirstTriple` | js/main.js:187-188 | `replace(/(\d{3})(\d)/, '$1.$2')` changes the string iff it holds four consecutive digits, and then adds one character. |
| `Masks.DashBeforeCpfTail` | js/main.js:189 | `replace(/(\d{3})(\d{1,2})$/, '$1-$2')` changes the string iff it ends in four digits, and then adds one character. |
| `Masks.ParenthesizeAreaCode` | js/main.js:214 | `replace(/^(\d{2})(\d)/g, '($1) $2')` changes the string iff it starts with three digits, and then adds three characters. |
| `Masks.DashBeforeLastFour` | js/main.js:215 | `replace(/(\d)(\d{4})$/, '$1-$2')` changes the string iff it ends in five digits, and then adds one character. |
| `Masks.DashAfterFifth` | js/main.js:236 | `replace(/^(\d{5})(\d)/, '$1-$2')` changes the string iff it starts with six digits, and then adds one character. |
| `Masks.MaskCpf` | js/main.js:186-189 | The CPF input handler adds at most three characters to the digits. Its full layout is `Masks.MaskCpfLayout`. |
| `Masks.MaskPhone` | js/main.js:213-215 | The phone input handler adds at most four characters to the digits. Its full layout is `Masks.MaskPhoneLayout`. |
| `Masks.MaskCep` | js/main.js:235-236 | The CEP input handler adds at most one character to the digits. Its full layout is `Masks.MaskCepLayout`. |
| `Masks.MaskCpfLayout` | js/main.js:186-189 | The three CPF rewrites give `DDD`, `DDD.D…`, `DDD.DDD.D…`, `DDD.DDD.DDD-D`, and from eleven digits on a dash before the last two. |
| `Masks.MaskCpfKeepsDigits` | js/main.js:186-189 | The CPF mask keeps exactly the input's digits in order. It only inserts punctuation. |
| `Masks.MaskCpfIdempotent` | js/validation.js:9-12 | Masking a masked CPF again changes nothing. |
| `Masks.MaskCpfSameVerdict` | js/main.js:192-194 | `validateCPF` gives the same verdict on the masked value as on the raw input. |
| `Masks.MaskCpfEleven` | js/validation.js:9-12 | Eleven digits become `DDD.DDD.DDD-DD`, 14 characters. |
| `Masks.MaskCpfLength` | js/main.js:192-196 | The masked length is 14 iff there are eleven digits. It is below 14 with fewer digits, above 14 with more, and 0 only with none. |
| `Masks.MaskCpfNoTruncation` | js/main.js:189 | Twelve digits are all kept: `123.456.7890-12`. |
| `Masks.MaskPhoneLayout` | js/main.js:213-215 | The two phone rewrites give bare digits up to two, then `(DD) D…`, and from seven digits on a dash before the last four. |
| `Masks.MaskPhoneKeepsDigits` | js/main.js:213-215 | The phone mask keeps exactly the input's digits in order. |
| `Masks.MaskPhoneIdempotent` | js/validation.js:19-21 | Masking a masked phone number again changes nothing. |
| `Masks.MaskPhoneShape` | js/validation.js:19-21 | Fewer than 3 digits stay bare. From 3 on the value starts `(DD) `. A dash appears iff at least five digits follow `) `. 11 digits give `(DD) DDDDD-DDDD` and 10 give `(DD) DDDD-DDDD`. |
| `Masks.MaskCepLayout` | js/main.js:235-236 | The CEP rewrite gives bare digits up to five, then `DDDDD-D…`. |
| `Masks.MaskCepKeepsDigits` | js/main.js:235-236 | The CEP mask keeps exactly the input's digits in order. |
| `Masks.MaskCepIdempotent` | js/validation.js:28-29 | Masking a masked CEP again changes nothing. |
| `Masks.MaskCepShape` | js/validation.js:28-29 | A dash follows the fifth digit iff there is a sixth. Otherwise the bare digit string comes back. 8 digits give `DDDDD-DDD`. |
| `Masks.MaskExamples` | js/main.js:186-236 | `52998224725` → `529.982.247-25`, `11987654321` → `(11) 98765-4321`, `01310100` → `01310-100`. |
| `Masks.ShortInputExamples` | js/main.js:213-236 | Nine phone digits give `(11) 987-6543`. Seven CEP digits give `01310-10`. |
| `Feedback.OnCpfInput` | js/main.js:192-200 | After a keystroke: "incompleto" iff the value has 1 to 13 characters, "inválido" iff it has 14 and `validateCPF` rejects it. |
| `Feedback.OnCpfBlur` | js/main.js:202-207 | On blur: "inválido" iff the value is non-empty and `validateCPF` rejects it; "incompleto" is never shown. |
| `Feedback.InputMessageByDigits` | js/main.js:192-200 | After a keystroke: no message with no digits, "incompleto" with 1–10 digits, the checksum verdict at 11, and no message past 11. |
| `Feedback.BlurMessageByDigits` | js/main.js:202-207 | Losing focus shows "inválido" iff the field has digits and `validateCPF` rejects them. |
| `Feedback.BlurCatchesExtraDigits` | js/main.js:192-207 | Past eleven digits the keystroke handler hides the message and the blur handler shows "inválido". |
| `Registration.ToRecord` | js/main.js:307-310 | `data[key] = value` over the entries in order; the record has at most one key per entry. Its keys and values are given by `Registration.RecordKeys` and `Registration.RecordKeepsLastValue`. |
| `Registration.CollectFormData` | js/main.js:306-310 | The `for … of` loop over the form entries builds exactly `ToRecord(entries)`. |
| `Registration.RecordKeys` | js/validation.js:38-42 | The record's keys are exactly the entry names. |
| `Registration.RecordKeepsLastValue` | js/validation.js:40-42 | A name maps to the value of its last entry. |
| `Registration.AllChecksPass` | js/main.js:276-300 | What `formIsValid` ends as. When it holds, the CPF field is absent, empty, or has exactly eleven digits. |
| `Registration.CheckForm` | js/main.js:276-300 | `formIsValid` ends true iff every required field is valid and the CPF, phone and CEP checks all pass. |
| `Registration.FailingRequiredBlocks` | js/main.js:279-286 | One failing required field makes the form invalid. |
| `Registration.RejectedCpfBlocks` | js/main.js:289-292 | A CPF field holding the mask of non-empty digits that `validateCPF` rejects makes the form invalid. |
| `Registration.RegistrationStore.constructor` | js/main.js:313 | With no stored list the list starts empty. |
| `Registration.RegistrationStore.Submit` | js/main.js:273-315 | Stores iff every check passes. If not, the list is unchanged. If so, exactly one record is appended last and earlier records are unchanged and in order. |
| `Registration.RegistrationStore.SubmitUnchecked` | js/validation.js:35-47 | Always appends exactly one record, last. The length grows by one and earlier records are unchanged. |
| `Routing.LastSegment` | js/main.js:105 | `split('/').pop()` holds no '/' and is no longer than the path. |
| `Routing.SegmentIsUnique` | js/main.js:105 | A '/'-free suffix that follows a '/' (or is the whole path) is the last segment. |
| `Routing.LastSegmentSplits` | js/main.js:105 | The last segment is a suffix of the path, preceded by '/' unless it is the whole path. |
| `Routing.InitialRoute` | js/main.js:104-112 | The first page is never empty, never `index.html` and holds no '/'. The history entry is replaced only for `inicio.html`. |
| `Routing.InitialRouteChoice` | js/main.js:106-112 | The last segment is loaded without touching history unless it is empty or `index.html`. Then `inicio.html` is loaded and the history entry is replaced. |
| `Routing.InitialRouteExamples` | js/main.js:105-111 | `/` and `/ong/index.html` load `inicio.html` with a replaced entry. `/ong/projetos.html` loads `projetos.html`. |
| `Cards.ImageTag` | js/main.js:31 | The image slot is empty iff the image path is empty. |
| `Cards.ProjectCard` | js/main.js:28-38 | `createProjectCard`: every card starts with the opening `<div class="card">` markup. |
| `Cards.RenderGrid` | js/main.js:61 | `projectsData.map(createProjectCard).join('')` is empty iff there are no projects. |
| `Cards.CardImageIffPath` | js/main.js:28-38 | The image slot right after the card's opening `<div>` holds `<img` iff the project's image path is non-empty. |
| `Cards.RenderGridAppend` | js/main.js:61 | The grid is the cards joined in the listing's order. |
| `Cards.ProjectsDataImages` | js/main.js:9-25 | The first two projects' cards show an image. The third's does not. |

## Left out

- `loadContent`, `fetch`, `history.pushState`/`replaceState` and the
  `popstate` listener (js/main.js:41-102): network and browser-history
  effects. `Routing.InitialRoute` models only which page is loaded first
  and whether the history entry is replaced.
- DOM work: `showError`/`hideError`, the modal, the hamburger menu,
  `alert`, `form.reset()`, and which error element shows which text. These
  are presentation only.
- `checkValidity()` for the phone, CEP and required fields. Its answer
  depends on HTML `pattern`/`required` attributes that are not part of
  this model, so it is a boolean input. The phone and CEP messages
  (js/main.js:211-252) combine that answer with a non-empty test
  (`value.length > 0 && !checkValidity()`), and the required-field
  blur/input listeners (js/main.js:255-269) use the answer alone; none of
  these messages is modelled.
- `localStorage` and `JSON.parse`/`JSON.stringify`: the stored list is the
  class's `seq` field. A corrupt stored value would make `JSON.parse` throw;
  no recovery is modelled.
- `FormData` enumeration and browser field semantics: the form's entries
  are a given sequence of name/value pairs.
- String length: JavaScript counts UTF-16 code units and Dafny counts
  characters. Where the model compares a length with 14
  (`Feedback.OnCpfInput`), the value is a masked one holding only ASCII
  digits and punctuation, so the two counts agree. Elsewhere
  (`Registration.CpfPasses`, `Feedback.OnCpfBlur`, the phone and CEP
  checks) only emptiness matters, and both counts are 0 exactly for the
  empty string.
- `Cards.ProjectCard`: the source inserts the title and description into
  the markup without HTML escaping, and so does the model. A title such
  as `<img src=x>` puts an `<img` into the card outside the image slot;
  `Cards.CardImageIffPath` speaks only about the slot.
- `Registration.CollectFormData` and `Registration.RecordKeys`: the source
  fills a plain JavaScript object `{}`. Assigning to a key named
  `__proto__` calls the inherited setter, which ignores a string value, so
  such a field is dropped from the record. The model treats every field
  name as an ordinary key and assumes no field is named `__proto__`.
- The repeated-digit test `(\d)\1{10}` is modelled as "all eleven digits
  equal" (`Cpf.AllSame`). It is only evaluated on an eleven-digit string,
  where the two coincide.
