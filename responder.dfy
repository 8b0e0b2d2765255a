/** The `POST /responder` handler of the Qisa service: the check of the
    request body, the product listing, the instruction block that describes
    the store to the language model, the two-turn chat history sent to the
    provider and the trimmed reply returned as `resposta`. The provider's
    reply is an input of the model. */
module Responder {
  import opened JsText
  import opened Price

  /** A product of the request: its name and its price in hundredths. */
  datatype Product = Product(nome: string, preco: int)

  /** The store profile `loja`. Fields the handler reads through `||` are
      optional; the others are interpolated as they are. `fechaFeriados`
      stands for the truthiness of that field. */
  datatype Store = Store(
    nome: string,
    cnpj: Option<string>,
    categoria: string,
    descricao: string,
    endereco: string,
    bairro: Option<string>,
    cidade: string,
    estado: string,
    cep: Option<string>,
    pontoReferencia: Option<string>,
    googleMaps: Option<string>,
    diasFuncionamento: string,
    horarioAbertura: string,
    horarioFechamento: string,
    fechaFeriados: bool,
    observacoes: Option<string>,
    telefone: string,
    email: Option<string>,
    redesSociais: Option<string>,
    site: Option<string>,
    tiposAtendimento: seq<string>,
    metodosPagamento: seq<string>)

  /** The request body. `loja` is None when it is missing or falsy (an
      object is always truthy); `produtos` is None when it is not an array. */
  datatype Body = Body(loja: Option<Store>, produtos: Option<seq<Product>>, pergunta: Option<string>)

  /** One turn of the chat history. */
  datatype Turn = Turn(role: string, text: string)

  /** What the handler does before the provider is called: reject the body,
      or open a chat with this history and send `message`. */
  datatype Prepared = Rejected(error: string) | Chat(history: seq<Turn>, message: string)

  /** The HTTP answer: its status and the one key of its JSON body. */
  datatype Response = Response(status: nat, key: string, value: string)

  const MissingFields := "Loja, produtos e pergunta são obrigatórios."
  const NoProducts := "Nenhum produto informado."
  const NotInformed := "Não informado"
  const NoNeighbourhood := "Bairro não informado"
  const NoNotes := "Nenhuma"
  const Introduction := "Você é Qisa, assistente virtual da loja \""
  const StoreHeader := "📌 Informações da loja:"
  const LocationHeader := "📍 Localização:"
  const HoursHeader := "⏰ Funcionamento:"
  const ContactHeader := "📞 Contato:"
  const ImportantHeader := "⚠️ IMPORTANTE:"
  const ScopeDirective := "Você deve responder apenas perguntas relacionadas à loja acima, seus produtos, serviços, funcionamento ou localização."
  const RefusalCue := "Se a pergunta **não** for sobre a loja ou seus serviços, **responda com:**"
  const ProductsHeader := "📦 Produtos disponíveis:"
  const ServicesHeader := "💳 Serviços e Pagamento:"
  const Refusal := "Desculpe, só posso responder sobre a loja e seus serviços."
  const ToneDirective := "Seja simpática, objetiva e profissional nas respostas."
  const InternalNote := "\n(⚠️ Esta é uma instrução interna, não responda a ela.)"

  /** The last lines of every instruction block: the quoted refusal sentence
      and the tone directive. */
  const Closing := "\"" + Refusal + "\"\n\n" + ToneDirective + "\n"

  /** The request check: the store and the question are truthy and the
      products are an array. */
  predicate IsValid(b: Body) {
    b.loja.Some? && Truthy(b.pergunta) && b.produtos.Some?
  }

  /** One product line. */
  function ProductLine(p: Product): string {
    "- " + p.nome + ": R$ " + FormatPrice(p.preco)
  }

  /** The product lines in input order. */
  function ProductLines(ps: seq<Product>): (r: seq<string>)
    ensures |r| == |ps|
    ensures forall i :: 0 <= i < |ps| ==> r[i] == ProductLine(ps[i])
  {
    seq(|ps|, i requires 0 <= i < |ps| => ProductLine(ps[i]))
  }

  /** The lines the product listing occupies: one per product, or the
      fallback line alone. */
  function ListingRows(ps: seq<Product>): seq<string> {
    if ps == [] then [NoProducts] else ProductLines(ps)
  }

  /** `listaProdutos`: the product lines joined by line breaks, or the
      fallback line. It is never empty, and it is the fallback line exactly
      when there are no products. */
  function RenderProducts(ps: seq<Product>): (r: string)
    ensures r != ""
    ensures r == NoProducts <==> ps == []
  {
    if |ps| > 0 then
      var lines := ProductLines(ps);
      var r := Join(lines, "\n");
      assert r[0] == '-' by {
        if |lines| > 1 {
          assert r == lines[0] + "\n" + Join(lines[1..], "\n");
        }
      }
      r
    else NoProducts
  }

  /** Line `k` of the template, counted from the empty line that opens it;
      line 26 holds the product listing `lista`. */
  function TemplateLine(s: Store, lista: string, k: nat): string
    requires k < 40
  {
    match k
    case 0 => ""
    case 1 => Introduction + s.nome + "\"."
    case 2 => ""
    case 3 => StoreHeader
    case 4 => "- CNPJ: " + OrElse(s.cnpj, NotInformed)
    case 5 => "- Categoria: " + s.categoria
    case 6 => "- Descrição: " + s.descricao
    case 7 => ""
    case 8 => LocationHeader
    case 9 => "- Endereço: " + s.endereco + ", " + OrElse(s.bairro, NoNeighbourhood) + ", " + s.cidade
                + " - " + s.estado + ", CEP: " + OrElse(s.cep, NotInformed)
    case 10 => "- Ponto de referência: " + OrElse(s.pontoReferencia, NotInformed)
    case 11 => "- Google Maps: " + OrElse(s.googleMaps, NotInformed)
    case 12 => ""
    case 13 => HoursHeader
    case 14 => "- Dias: " + s.diasFuncionamento
    case 15 => "- Horário: " + s.horarioAbertura + " às " + s.horarioFechamento
    case 16 => "- Fecha em feriados: " + (if s.fechaFeriados then "Sim" else "Não")
    case 17 => "- Observações: " + OrElse(s.observacoes, NoNotes)
    case 18 => ""
    case 19 => ContactHeader
    case 20 => "- Telefone/WhatsApp: " + s.telefone
    case 21 => "- E-mail: " + OrElse(s.email, NotInformed)
    case 22 => "- Redes sociais: " + OrElse(s.redesSociais, NotInformed)
    case 23 => "- Site: " + OrElse(s.site, NotInformed)
    case 24 => ""
    case 25 => ProductsHeader
    case 26 => lista
    case 27 => ""
    case 28 => ServicesHeader
    case 29 => "- Tipos de atendimento: " + Join(s.tiposAtendimento, ", ")
    case 30 => "- Métodos de pagamento: " + Join(s.metodosPagamento, ", ")
    case 31 => ""
    case 32 => ImportantHeader
    case 33 => ScopeDirective
    case 34 => ""
    case 35 => RefusalCue
    case 36 => "\"" + Refusal + "\""
    case 37 => ""
    case 38 => ToneDirective
    case _ => ""
  }

  /** The template's forty lines in order. */
  function TemplateLines(s: Store, lista: string): (r: seq<string>)
    ensures |r| == 40
    ensures forall k :: 0 <= k < 40 ==> r[k] == TemplateLine(s, lista, k)
  {
    seq(40, k requires 0 <= k < 40 => TemplateLine(s, lista, k))
  }

  /** The template literal with `lista` interpolated: its lines joined by
      line breaks. */
  function Instruction(s: Store, lista: string): string {
    Join(TemplateLines(s, lista), "\n")
  }

  /** `systemInstruction`: the template with the rendered product listing. */
  function BuildInstruction(s: Store, ps: seq<Product>): string {
    Instruction(s, RenderProducts(ps))
  }

  /** The text of the first history turn: the block and the note that it is
      an internal instruction. */
  function FirstTurnText(s: Store, ps: seq<Product>): string {
    BuildInstruction(s, ps) + InternalNote
  }

  /** Validation and prompt construction: the body is rejected with the
      fixed message exactly when the store or the question is falsy or the
      products are not an array; otherwise the chat holds the instruction
      turn and the question turn, both from the user, and the question is
      the message sent. */
  function Prepare(b: Body): (r: Prepared)
    ensures r.Rejected? <==> (b.loja.None? || !Truthy(b.pergunta) || b.produtos.None?)
    ensures r.Rejected? ==> r.error == MissingFields
    ensures r.Chat? ==>
      && r.history == [Turn("user", FirstTurnText(b.loja.value, b.produtos.value)), Turn("user", b.pergunta.value)]
      && r.message == b.pergunta.value && r.message != ""
  {
    if !IsValid(b) then Rejected(MissingFields)
    else
      var question := b.pergunta.value;
      Chat([Turn("user", FirstTurnText(b.loja.value, b.produtos.value)), Turn("user", question)], question)
  }

  /** The answer of the handler given the provider's reply text: 400 with
      the fixed error, whatever the provider would say, when the body is
      rejected; otherwise 200 with the reply trimmed of whitespace at both
      ends. */
  function Respond(b: Body, reply: string): (r: Response)
    ensures r.status == 400 <==> !IsValid(b)
    ensures !IsValid(b) ==> r == Response(400, "error", MissingFields)
    ensures IsValid(b) ==> r.status == 200 && r.key == "resposta"
    ensures IsValid(b) ==> r.value == Trim(reply)
    ensures IsValid(b) && r.value != [] ==> !IsSpace(r.value[0]) && !IsSpace(r.value[|r.value| - 1])
  {
    match Prepare(b)
    case Rejected(e) => Response(400, "error", e)
    case Chat(_, _) => Response(200, "resposta", Trim(reply))
  }

  /** `text` holds `line` as a whole line between two line breaks. */
  ghost predicate HasLine(text: string, line: string) {
    Delimited(text, line, "\n")
  }

  lemma LineOfTemplate(s: Store, lista: string, k: nat, line: string)
    requires 0 < k < 39 && TemplateLine(s, lista, k) == line
    ensures HasLine(Instruction(s, lista), line)
  {
    var lines := TemplateLines(s, lista);
    JoinDelimits(lines, k, k, "\n");
    assert lines[k..k + 1] == [line];
  }

  /** The identity lines: the introduction names the store, and the tax id
      is shown when truthy and as the placeholder otherwise. */
  lemma IdentityLines(s: Store, lista: string)
    ensures var b := Instruction(s, lista);
      && HasLine(b, Introduction + s.nome + "\".")
      && HasLine(b, "- CNPJ: " + (if Truthy(s.cnpj) then s.cnpj.value else NotInformed))
      && HasLine(b, "- Categoria: " + s.categoria)
      && HasLine(b, "- Descrição: " + s.descricao)
  {
    LineOfTemplate(s, lista, 1, Introduction + s.nome + "\".");
    LineOfTemplate(s, lista, 4, "- CNPJ: " + (if Truthy(s.cnpj) then s.cnpj.value else NotInformed));
    LineOfTemplate(s, lista, 5, "- Categoria: " + s.categoria);
    LineOfTemplate(s, lista, 6, "- Descrição: " + s.descricao);
  }


  /** The location lines: neighbourhood, postal code, landmark and map link
      are each shown when truthy and as their placeholder otherwise. */
  lemma LocationLines(s: Store, lista: string)
    ensures var b := Instruction(s, lista);
      && HasLine(b, "- Endereço: " + s.endereco
           + ", " + (if Truthy(s.bairro) then s.bairro.value else NoNeighbourhood)
           + ", " + s.cidade + " - " + s.estado
           + ", CEP: " + (if Truthy(s.cep) then s.cep.value else NotInformed))
      && HasLine(b, "- Ponto de referência: "
           + (if Truthy(s.pontoReferencia) then s.pontoReferencia.value else NotInformed))
      && HasLine(b, "- Google Maps: " + (if Truthy(s.googleMaps) then s.googleMaps.value else NotInformed))
  {
    LineOfTemplate(s, lista, 9, "- Endereço: " + s.endereco + ", " + (if Truthy(s.bairro) then s.bairro.value else NoNeighbourhood) + ", " + s.cidade + " - " + s.estado + ", CEP: " + (if Truthy(s.cep) then s.cep.value else NotInformed));
    LineOfTemplate(s, lista, 10, "- Ponto de referência: " + (if Truthy(s.pontoReferencia) then s.pontoReferencia.value else NotInformed));
    LineOfTemplate(s, lista, 11, "- Google Maps: " + (if Truthy(s.googleMaps) then s.googleMaps.value else NotInformed));
  }


  /** The opening-hours lines: the holiday flag shows as `Sim` exactly when
      it is truthy, and the notes as the notes or `Nenhuma`. */
  lemma HoursLines(s: Store, lista: string)
    ensures var b := Instruction(s, lista);
      && HasLine(b, "- Dias: " + s.diasFuncionamento)
      && HasLine(b, "- Horário: " + s.horarioAbertura + " às " + s.horarioFechamento)
      && HasLine(b, "- Fecha em feriados: " + (if s.fechaFeriados then "Sim" else "Não"))
      && HasLine(b, "- Observações: " + (if Truthy(s.observacoes) then s.observacoes.value else NoNotes))
  {
    LineOfTemplate(s, lista, 14, "- Dias: " + s.diasFuncionamento);
    LineOfTemplate(s, lista, 15, "- Horário: " + s.horarioAbertura + " às " + s.horarioFechamento);
    LineOfTemplate(s, lista, 16, "- Fecha em feriados: " + (if s.fechaFeriados then "Sim" else "Não"));
    LineOfTemplate(s, lista, 17, "- Observações: " + (if Truthy(s.observacoes) then s.observacoes.value else NoNotes));
  }


  /** The contact lines: e-mail, social links and site are each shown when
      truthy and as the placeholder otherwise. */
  lemma ContactLines(s: Store, lista: string)
    ensures var b := Instruction(s, lista);
      && HasLine(b, "- Telefone/WhatsApp: " + s.telefone)
      && HasLine(b, "- E-mail: " + (if Truthy(s.email) then s.email.value else NotInformed))
      && HasLine(b, "- Redes sociais: " + (if Truthy(s.redesSociais) then s.redesSociais.value else NotInformed))
      && HasLine(b, "- Site: " + (if Truthy(s.site) then s.site.value else NotInformed))
  {
    LineOfTemplate(s, lista, 20, "- Telefone/WhatsApp: " + s.telefone);
    LineOfTemplate(s, lista, 21, "- E-mail: " + (if Truthy(s.email) then s.email.value else NotInformed));
    LineOfTemplate(s, lista, 22, "- Redes sociais: " + (if Truthy(s.redesSociais) then s.redesSociais.value else NotInformed));
    LineOfTemplate(s, lista, 23, "- Site: " + (if Truthy(s.site) then s.site.value else NotInformed));
  }


  /** The services and payment lines show the two lists joined by `", "`. */
  lemma ServiceLines(s: Store, lista: string)
    ensures var b := Instruction(s, lista);
      && HasLine(b, "- Tipos de atendimento: " + Join(s.tiposAtendimento, ", "))
      && HasLine(b, "- Métodos de pagamento: " + Join(s.metodosPagamento, ", "))
  {
    LineOfTemplate(s, lista, 29, "- Tipos de atendimento: " + Join(s.tiposAtendimento, ", "));
    LineOfTemplate(s, lista, 30, "- Métodos de pagamento: " + Join(s.metodosPagamento, ", "));
  }


  /** A profile whose optional fields are all missing or empty still fills
      every optional slot of the block with its placeholder. Required fields
      and the two lists are interpolated as given, even when empty. */
  lemma PlaceholdersWhenAbsent(s: Store, lista: string)
    requires !Truthy(s.cnpj) && !Truthy(s.bairro) && !Truthy(s.cep)
    requires !Truthy(s.pontoReferencia) && !Truthy(s.googleMaps) && !Truthy(s.observacoes)
    requires !Truthy(s.email) && !Truthy(s.redesSociais) && !Truthy(s.site)
    ensures var b := Instruction(s, lista);
      && HasLine(b, "- CNPJ: " + NotInformed)
      && HasLine(b, "- Endereço: " + s.endereco + ", " + NoNeighbourhood + ", " + s.cidade + " - " + s.estado
           + ", CEP: " + NotInformed)
      && HasLine(b, "- Ponto de referência: " + NotInformed)
      && HasLine(b, "- Google Maps: " + NotInformed)
      && HasLine(b, "- Observações: " + NoNotes)
      && HasLine(b, "- E-mail: " + NotInformed)
      && HasLine(b, "- Redes sociais: " + NotInformed)
      && HasLine(b, "- Site: " + NotInformed)
  {
    IdentityLines(s, lista);
    LocationLines(s, lista);
    HoursLines(s, lista);
    ContactLines(s, lista);
  }

  /** The listing stands on its own lines between the products header and
      the blank line before the services header. */
  lemma ListingBetweenHeaders(s: Store, lista: string)
    ensures HasLine(Instruction(s, lista), ProductsHeader + "\n" + lista + "\n\n" + ServicesHeader)
  {
    JoinDelimits(TemplateLines(s, lista), 25, 28, "\n");
    ListingTemplateRows(s, lista);
    ListingJoin(lista);
  }

  /** Lines 25 to 28 of the template: the products header, the listing, a
      blank line and the services header. */
  lemma ListingTemplateRows(s: Store, lista: string)
    ensures TemplateLines(s, lista)[25..29] == [ProductsHeader, lista, "", ServicesHeader]
  {
  }

  lemma ListingJoin(lista: string)
    ensures Join([ProductsHeader, lista, "", ServicesHeader], "\n")
      == ProductsHeader + "\n" + lista + "\n\n" + ServicesHeader
  {
    JoinCons(ProductsHeader, [lista, "", ServicesHeader], "\n");
    JoinCons(lista, ["", ServicesHeader], "\n");
    JoinCons("", [ServicesHeader], "\n");
  }

  /** The first two lines of the template: the empty line after the
      opening backtick and the introduction. */
  lemma OpeningRows(s: Store, lista: string)
    ensures TemplateLines(s, lista)[..2] == ["", Introduction + s.nome + "\"."]
  {
  }

  /** The last four lines of the template: the quoted refusal, a blank
      line, the tone directive and the empty line before the closing
      backtick. */
  lemma ClosingRows(s: Store, lista: string)
    ensures TemplateLines(s, lista)[36..] == ["\"" + Refusal + "\"", "", ToneDirective, ""]
  {
  }

  /** The block opens with a line break and the assistant's introduction
      naming the store. */
  lemma BlockOpening(s: Store, lista: string)
    ensures StartsWith(Instruction(s, lista), "\n" + Introduction + s.nome + "\".\n")
  {
    var intro := Introduction + s.nome + "\".";
    OpeningRows(s, lista);
    JoinHead(TemplateLines(s, lista), 2, "\n");
    JoinCons("", [intro], "\n");
    assert Join(["", intro], "\n") + "\n" == "\n" + intro + "\n";
  }

  /** The block closes with the quoted refusal sentence and the tone
      directive, whatever the store and the listing. */
  lemma BlockClosing(s: Store, lista: string)
    ensures EndsWith(Instruction(s, lista), Closing)
  {
    ClosingRows(s, lista);
    JoinTail(TemplateLines(s, lista), 36, "\n");
    ClosingJoin();
    EndsWithShorter(Instruction(s, lista), "\n", Closing);
  }

  /** The closing lines of the template, joined, are `Closing`. */
  lemma ClosingJoin()
    ensures Join(["\"" + Refusal + "\"", "", ToneDirective, ""], "\n") == Closing
  {
    var q := "\"" + Refusal + "\"";
    JoinCons(q, ["", ToneDirective, ""], "\n");
    JoinCons("", [ToneDirective, ""], "\n");
    JoinCons(ToneDirective, [""], "\n");
  }

  /** The first history turn is the block for the rendered listing followed
      by the internal-instruction note, so it ends with the closing
      directives and that note. */
  lemma FirstTurnClosing(s: Store, ps: seq<Product>)
    ensures EndsWith(FirstTurnText(s, ps), Closing + InternalNote)
  {
    BlockClosing(s, RenderProducts(ps));
    EndsWithAppend(Instruction(s, RenderProducts(ps)), Closing, InternalNote);
  }

  /** Each product line is `- <nome>: R$ <integer part>,<two digits>`, with
      a minus sign before the digits for a negative amount, and the digits
      denote the price. */
  lemma ProductLineShape(p: Product)
    ensures var ip := Numeral(Abs(p.preco) / 100);
      var fp := TwoDigits(Abs(p.preco) % 100);
      && ProductLine(p) == "- " + p.nome + ": R$ " + (if p.preco < 0 then "-" else "") + ip + "," + fp
      && AllDigits(ip) && AllDigits(fp) && |fp| == 2
      && DecimalValue(ip) * 100 + DecimalValue(fp) == Abs(p.preco)
  {
    FormatPriceShape(p.preco);
  }

  /** No product name holds a line break. */
  predicate NamesOneLine(ps: seq<Product>) {
    forall i :: 0 <= i < |ps| ==> '\n' !in ps[i].nome
  }

  /** Read line by line, the listing is the fallback line alone for no
      products, and otherwise exactly one line per product in input order. */
  lemma RenderedLines(ps: seq<Product>)
    requires NamesOneLine(ps)
    ensures Split(RenderProducts(ps), '\n') == ListingRows(ps)
    ensures |Split(RenderProducts(ps), '\n')| == if ps == [] then 1 else |ps|
  {
    if ps == [] {
      SplitWithoutSeparator(NoProducts, '\n');
    } else {
      var lines := ProductLines(ps);
      forall i | 0 <= i < |lines| ensures '\n' !in lines[i] {
        FormatPriceShape(ps[i].preco);
      }
      assert "\n" == ['\n'];
      SplitJoinChar(lines, '\n');
    }
  }

  /** Every line of the template other than the listing is a single line:
      no interpolated store field holds a line break. */
  predicate OtherLinesOneLine(s: Store, lista: string) {
    forall k :: 0 <= k < 40 && k != 26 ==> '\n' !in TemplateLine(s, lista, k)
  }

  /** Read line by line, the block is exactly the template in its order,
      with the listing's own lines in place of line 26. */
  lemma InstructionLines(s: Store, lista: string)
    requires OtherLinesOneLine(s, lista)
    ensures Split(Instruction(s, lista), '\n')
      == TemplateLines(s, lista)[..26] + Split(lista, '\n') + TemplateLines(s, lista)[27..]
  {
    var lines := TemplateLines(s, lista);
    var a, z := lines[..26], lines[27..];
    assert lines == a + [lista] + z;
    assert forall i :: 0 <= i < |a| ==> a[i] == TemplateLine(s, lista, i);
    assert forall i :: 0 <= i < |z| ==> z[i] == TemplateLine(s, lista, i + 27);
    assert "\n" == ['\n'];
    SplitJoinAround(a, lista, z, '\n');
  }

  /** `systemInstruction` read line by line: the template's lines in order,
      with one line per product, or the fallback line, in place of the
      listing; so it has 39 lines besides the listing's. */
  lemma BuildInstructionLines(s: Store, ps: seq<Product>)
    requires NamesOneLine(ps)
    requires OtherLinesOneLine(s, RenderProducts(ps))
    ensures var lines := TemplateLines(s, RenderProducts(ps));
      Split(BuildInstruction(s, ps), '\n') == lines[..26] + ListingRows(ps) + lines[27..]
    ensures |Split(BuildInstruction(s, ps), '\n')| == 39 + if ps == [] then 1 else |ps|
  {
    InstructionLines(s, RenderProducts(ps));
    RenderedLines(ps);
  }

  /** The services and payment lists: an empty list shows as the empty
      string, and a list whose entries hold no comma reads back, split at
      the commas, as its entries in order, each after the first behind the
      space of the separator. */
  lemma JoinedListPieces(xs: seq<string>)
    requires forall i :: 0 <= i < |xs| ==> ',' !in xs[i]
    ensures xs == [] ==> Join(xs, ", ") == ""
    ensures xs != [] ==> Split(Join(xs, ", "), ',') == [xs[0]] + PrefixEach(" ", xs[1..])
  {
    if xs != [] {
      assert ", " == [','] + " ";
      SplitJoin(xs, ',', " ");
    }
  }
}
