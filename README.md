# Qisa responder — a Dafny model

Qisa is a small HTTP service. Its `POST /responder` route receives a store
profile (`loja`), a product list (`produtos`) and a customer question
(`pergunta`). It first checks the body. It then turns the store and its
products into an instruction block for a generative-language provider, opens
a chat whose first turn is that block, and returns the provider's answer,
trimmed, as `resposta`.

This project models the string logic of that handler as pure Dafny functions
and proves what the handler promises about them:

- `jstext.dfy`, module `JsText`: the JavaScript built-ins the handler uses.
  These are truthiness and the `||` fallback, `Array.prototype.join`,
  `String.prototype.split` on one character (the reader that lemmas use to
  show what a join produces), `replace` with a one-character pattern, and
  `trim` with ECMAScript's whitespace and line-terminator code points.
- `price.dfy`, module `Price`: `preco.toFixed(2).replace('.', ',')`. The
  price is given in hundredths.
- `responder.dfy`, module `Responder`: the request check, the product
  listing `listaProdutos`, the forty-line `systemInstruction` template, the
  two-turn chat history with its internal-instruction note, and the
  400/200 answer.

How the JavaScript values are modelled:

- An optional store field is an `Option<string>`. Both `None` (undefined or
  null) and `Some("")` are falsy.
- `loja` is `None` when it is missing or falsy. Any object is truthy.
- `produtos` is `None` when it is not an array.
- `fechaFeriados` is a `bool` that stands for the field's truthiness.
- Line `k` of the template (`Responder.TemplateLine`) is line `57 + k` of
  `index.js`. Line 0 is the empty line after the opening backtick, and line
  39 is the empty line before the closing one. `HasLine(b, x)` means that `x`
  stands in `b` between two line breaks.

Points where the handler does less than a reader of its messages might
expect, and which the model follows:

- The 400 body is always the same sentence. It does not say which field is
  missing.
- The telephone is not checked.
- Any integer price is accepted. A negative one is rendered with a minus
  sign.
- The question is sent twice: once as the second history turn and once as
  the message.
- Some slots of the block can still be interpolated empty. An empty
  `tiposAtendimento` or `metodosPagamento` joins to the empty string
  (index.js:86-87). An empty required field, such as `categoria` or
  `telefone` (index.js:62, 77), appears as given. Only the nine optional
  fields have placeholders.

## Model

| member | source | states |
|---|---|---|
| `Responder.IsValid` | index.js:24 | The request check as the handler writes it: a truthy `loja`, a truthy `pergunta` and an array `produtos`. It has no contract of its own. `Prepare` and `Respond` state the accept/reject behaviour it decides, in both directions. |
| `Responder.Prepare` | index.js:22-116 | The body is rejected with the fixed message exactly when `loja` is falsy, `pergunta` is falsy or `produtos` is not an array. Otherwise the history is two user turns: the instruction block with the internal note, then the question. The question is also the message sent, and it is non-empty. |
| `Responder.Respond` | index.js:22-119 | The status is 400 exactly when the body is invalid. A rejected body gets `{error: <fixed message>}` whatever the provider would reply, so no reply is used. A valid body gets 200 with `resposta` equal to the reply trimmed, with no whitespace at either end. |
| `Responder.ProductLine` | index.js:54 | One product line, `- <nome>: R$ <price>`. It has no contract of its own. `ProductLineShape` states its exact form and that its digits denote the price. |
| `Responder.RenderProducts` | index.js:53-55 | The listing is never empty. It is the fallback line `Nenhum produto informado.` exactly when there are no products. |
| `Responder.RenderedLines` | index.js:53-55 | When no name holds a line break, the listing read line by line is one line per product in input order, or the fallback line alone. So its line count is the number of products, or 1. |
| `Responder.ProductLineShape` | index.js:54 | Each product line is `- <nome>: R$ [-]<digits>,<two digits>`. The integer digits and the two fractional digits together denote the price. |
| `Responder.TemplateLine` | index.js:57-96 | Line `k` of the template literal, that is, line `57 + k` of the source with its interpolations. Line 26 is the listing. It has no contract of its own. `LineOfTemplate`, `InstructionLines` and the per-section lemmas below state where each line stands in the block. |
| `Responder.Instruction` | index.js:57-96 | The template literal for a given listing: its forty lines joined by line breaks. It has no contract of its own. `InstructionLines` states that the block, read line by line, is exactly the template in order. |
| `Responder.BuildInstruction` | index.js:53-96 | `systemInstruction`: the template with the rendered product listing. It has no contract of its own. `BuildInstructionLines` states its whole line-by-line content. |
| `Responder.InstructionLines` | index.js:57-96 | When no other template line holds a line break, the block read line by line is the template's lines 0-25, the listing's own lines, then lines 27-39, in that order and with nothing else. |
| `Responder.BuildInstructionLines` | index.js:53-96 | When no product name and no other template line holds a line break, `systemInstruction` read line by line is the template in order, with one line per product in input order (or the fallback line) in place of the listing. So it has 39 lines plus the number of products, or 40. |
| `Responder.FirstTurnText` | index.js:106 | The text of the first history turn: `systemInstruction` followed by the internal-instruction note. It has no contract of its own. `FirstTurnClosing` states how it ends, and `Prepare` states that it is the first turn. |
| `Responder.LineOfTemplate` | index.js:57-96 | Every inner line of the template stands in the block between two line breaks. |
| `Responder.IdentityLines` | index.js:58-63 | The block names the store in the introduction. It shows the CNPJ when truthy and `Não informado` otherwise, and it shows category and description as given. |
| `Responder.LocationLines` | index.js:65-68 | The address line shows the neighbourhood (or `Bairro não informado`) and the CEP (or `Não informado`). Landmark and map link are each shown when truthy, and as `Não informado` otherwise. |
| `Responder.HoursLines` | index.js:70-74 | Days and hours are shown as given. The holiday line says `Sim` exactly when `fechaFeriados` is truthy, and `Não` otherwise. The notes are shown when truthy, and as `Nenhuma` otherwise. |
| `Responder.ContactLines` | index.js:76-80 | The phone is shown as given. E-mail, social links and site are each shown when truthy, and as `Não informado` otherwise. |
| `Responder.ServiceLines` | index.js:85-87 | The service types and payment methods lines show each list joined by `", "`. |
| `Responder.JoinedListPieces` | index.js:86-87 | An empty list joins to the empty string. A list whose entries hold no comma reads back, split at the commas, as its entries in order, each after the first following the separator's space. |
| `Responder.PlaceholdersWhenAbsent` | index.js:61-80 | With every optional field falsy, each of the nine optional slots of the block holds its placeholder, so no optional slot is interpolated empty. |
| `Responder.ListingBetweenHeaders` | index.js:82-85 | The listing stands on its own lines, right after the `📦 Produtos disponíveis:` header and before the blank line and the services header. |
| `Responder.BlockOpening` | index.js:57-58 | The block starts with a line break and the introduction line naming the store. |
| `Responder.BlockClosing` | index.js:92-96 | The block ends with the quoted refusal sentence `Desculpe, só posso responder sobre a loja e seus serviços.`, a blank line, the tone directive and a final line break, for every store and listing. |
| `Responder.FirstTurnClosing` | index.js:106 | The first history turn ends with those closing lines followed by the internal-instruction note. |
| `Price.ToFixed2` | index.js:54 | `toFixed(2)` of an amount given in hundredths: an optional minus sign, the integer numeral, a point and two digits. It has no contract of its own. `FormatPriceShape` states the digits' meaning. |
| `Price.FormatPrice` | index.js:54 | `preco.toFixed(2).replace('.', ',')`. It has no contract of its own. `FormatPriceShape` states that it is sign, integer digits, comma and two digits denoting the amount, with no point or line break. |
| `Price.Numeral` | index.js:54 | The integer part of `toFixed(2)` is all digits, has no leading zero and denotes the number. |
| `Price.TwoDigits` | index.js:54 | The fractional part of `toFixed(2)` is exactly two digits, with the leading zero kept, and denotes the hundredths. |
| `Price.FormatPriceShape` | index.js:54 | `replace('.', ',')` turns the only decimal point of the rendering into a comma. The result is sign, integer digits, comma and two digits, denotes the amount, and holds neither a point nor a line break. |
| `JsText.OrElse` | index.js:61-80 | `v \|\| fallback` is the value when truthy and the fallback otherwise. It is never empty when the fallback is not. |
| `JsText.Join` | index.js:54 | `Array.prototype.join`: the parts with the separator between consecutive ones, and `""` for no parts. It has no contract of its own. `JoinAppend`, `SplitJoin`, `SplitJoinChar` and `JoinSplit` state its properties. Lines 86-87 join with `", "`. |
| `JsText.Split` | index.js:54 | The reader used to state what the `join('\n')` at line 54 and the template produce. The source itself never splits. The pieces never hold the separator, and there is always at least one. |
| `JsText.JoinAppend` | index.js:54 | For two non-empty halves, joining their concatenation is joining each half, with one separator between them. |
| `JsText.SplitJoin` | index.js:54 | Round trip for a separator `[c] + t`, given a non-empty list and `c` in neither `t` nor any part: splitting the join at `c` gives back the first part, and then each further part with `t` in front. |
| `JsText.SplitJoinChar` | index.js:54 | The same round trip for a one-character separator such as the `'\n'` of the listing. |
| `JsText.SplitJoinAround` | index.js:57-96 | When every part except one inner part `m` is free of the separator, splitting the join gives back those parts around the pieces of `m`. This is how the template's line 26 holds a multi-line listing. |
| `JsText.JoinSplit` | index.js:54 | The other round trip: joining the pieces of a split with the separator gives back the string. |
| `JsText.ReplaceFirst` | index.js:54 | `replace` with a one-character pattern keeps the length. It changes the first occurrence only, and keeps every other position. |
| `JsText.ReplaceFirstAt` | index.js:54 | When the prefix before a point holds no point, exactly that point becomes the replacement. |
| `JsText.IsSpace` | index.js:119 | The code points `trim` removes: ECMAScript's WhiteSpace and LineTerminator, that is, tab, line feed, vertical tab, form feed, carriage return, space, U+00A0, U+1680, U+2000-U+200A, U+2028, U+2029, U+202F, U+205F, U+3000 and U+FEFF. It is a set definition with no contract; `Trim` and its lemmas are stated in terms of it. |
| `JsText.SpaceRunEnd` | index.js:119 | The leading scan of `trim` stops at the first character that is not whitespace, or at the end, and passes only whitespace. |
| `JsText.SpaceRunStart` | index.js:119 | The trailing scan of `trim` stops after the last character that is not whitespace, never going below where the leading scan stopped, and passes only whitespace. |
| `JsText.Trim` | index.js:119 | `trim()` returns the factor of the input that starts where the leading whitespace ends. It has no whitespace at either end, and only whitespace lies around it. |
| `JsText.TrimSurrounded` | index.js:119 | Trimming is determined by its result: any whitespace around a string without edge whitespace is removed exactly. |
| `JsText.TrimIdempotent` | index.js:119 | Trimming twice equals trimming once. |

## Left out

- The Express application, the `GET /` liveness route, JSON body parsing, `app.listen` and the `PORT` default (index.js:1-7, 14-16, 126-129). These are framework and process plumbing.
- Reading the `GEMINI` secret with dotenv and building the provider client (index.js:5, 9, 12). These are environment configuration and a foreign library.
- The provider call: model selection, `startChat`, the `temperature: 0.7` setting, `sendMessage` and `response.text()` (index.js:99-117). The model builds the history and the message that go to the provider. It takes the provider's reply text as an input of `Respond`, so whether the provider follows the refusal directive is not modelled.
- The 500 answer when the provider call fails (index.js:120-123). It only relays a provider failure, so `Respond` assumes the call returned a reply.
- Logging with `console.log` and `console.error` (index.js:19-20, 121, 128). It is diagnostic output with no behaviour to state.
- `Price.ToFixed2`: the rounding of a JavaScript double to two decimals, and the exponential notation `toFixed` uses from 1e21 on. Both are floating point. A price is modelled as its already-rounded amount in hundredths, so the model also cannot produce JavaScript's `-0.00` for a tiny negative price.
- Runtime type errors: a non-numeric `preco` makes `toFixed` throw (index.js:54), and a missing `tiposAtendimento` or `metodosPagamento` makes `join` throw (index.js:86-87). Both sit before the `try` at index.js:98, so neither error reaches the `catch` at index.js:120, and the handler's own `{error: 'Erro ao gerar resposta da qisa'}` is not sent for them. The model uses well-typed numbers and sequences instead.
- How JavaScript renders `undefined`, `null` or non-string values in the fields interpolated without a fallback (`nome`, `categoria`, `telefone`, …) and in list entries. These fields are modelled as strings.
- A truthy `pergunta` that is not a string, and a `fechaFeriados` other than a boolean. Only their truthiness is modelled.
- Strings are sequences of Unicode code points, while JavaScript strings are UTF-16 code units. The text is the same, but lengths and indices differ for characters outside the Basic Multilingual Plane, such as the emoji headers.
- `Responder.InstructionLines` and `Responder.BuildInstructionLines` take as a premise that the template's lines other than the listing hold no line break. They do not derive this for the fixed text of those lines. Only the interpolated store fields can break the premise.
