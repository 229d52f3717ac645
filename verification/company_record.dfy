/**
 * The company record (`Empresa`) and how a looked-up record is shown.
 * Every field may be null; a null field interpolates as the empty string.
 */
module CompanyRecord {
  import opened Wrappers
  import opened Console

  datatype Empresa = Empresa(
    nome: Option<string>,
    fantasia: Option<string>,
    cnpj: Option<string>,
    situacao: Option<string>,
    tipo: Option<string>,
    abertura: Option<string>,
    naturezaJuridica: Option<string>,
    logradouro: Option<string>,
    numero: Option<string>,
    bairro: Option<string>,
    municipio: Option<string>,
    uf: Option<string>,
    cep: Option<string>)

  const NotFoundMessage := "CNPJ não encontrado ou dados indisponíveis."
  const FoundHeader := "\nEmpresa encontrada:"

  /** The labels of the five lines shown for a found company, in order. */
  const Labels: seq<string> := ["Nome: ", "Fantasia: ", "Situação: ", "Abertura: ", "Endereço: "]

  /** A field as string interpolation writes it. */
  function Shown(field: Option<string>): (s: string)
    ensures field.Some? ==> s == field.value
    ensures field.None? ==> s == ""
  {
    match field
    case Some(v) => v
    case None => ""
  }

  /** `empresa?.Nome == null`: there is no record, or it has no name. */
  predicate NotFound(record: Option<Empresa>) {
    record.None? || record.value.nome.None?
  }

  /** The address: street, number - district, city/state - CEP: postal code. */
  function AddressLine(e: Empresa): (line: string)
    ensures Shown(e.logradouro) + ", " <= line
    ensures |line| == |Shown(e.logradouro)| + |Shown(e.numero)| + |Shown(e.bairro)|
                    + |Shown(e.municipio)| + |Shown(e.uf)| + |Shown(e.cep)| + 16
    ensures line[|line| - |Shown(e.cep)| - 8..] == " - CEP: " + Shown(e.cep)
  {
    Shown(e.logradouro) + ", " + Shown(e.numero) + " - " + Shown(e.bairro) + ", "
      + Shown(e.municipio) + "/" + Shown(e.uf) + " - CEP: " + Shown(e.cep)
  }

  /** The values shown on the five labelled lines, in the order of `Labels`. */
  function ShownValues(e: Empresa): (values: seq<string>)
    ensures |values| == |Labels|
  {
    [Shown(e.nome), Shown(e.fantasia), Shown(e.situacao), Shown(e.abertura), AddressLine(e)]
  }

  /**
   * What the program prints for a looked-up record: the not-found message
   * alone, or a header followed by the five labelled lines.
   */
  function Present(record: Option<Empresa>): (out: seq<ConsoleCall>)
    ensures NotFound(record) <==> out == [WriteLine(NotFoundMessage)]
    ensures !NotFound(record) ==>
      && |out| == 1 + |Labels|
      && out[0] == WriteLine(FoundHeader)
      && forall i :: 0 <= i < |Labels| ==> out[i + 1] == WriteLine(Labels[i] + ShownValues(record.value)[i])
  {
    if NotFound(record) then
      [WriteLine(NotFoundMessage)]
    else
      var e := record.value;
      [ WriteLine(FoundHeader),
        WriteLine("Nome: " + Shown(e.nome)),
        WriteLine("Fantasia: " + Shown(e.fantasia)),
        WriteLine("Situação: " + Shown(e.situacao)),
        WriteLine("Abertura: " + Shown(e.abertura)),
        WriteLine("Endereço: " + AddressLine(e)) ]
  }

  /** The name is shown as it is, even when it is empty. */
  lemma FoundShowsName(e: Empresa, name: string)
    requires e.nome == Some(name)
    ensures Present(Some(e))[1] == WriteLine("Nome: " + name)
    ensures Present(Some(e)) != [WriteLine(NotFoundMessage)]
  {
  }

  /**
   * The tax id, the entity type and the legal nature are never shown: two
   * records that agree on the other fields are presented alike.
   */
  lemma PresentIgnoresHiddenFields(a: Empresa, b: Empresa)
    requires a.nome == b.nome && a.fantasia == b.fantasia && a.situacao == b.situacao
    requires a.abertura == b.abertura && a.logradouro == b.logradouro && a.numero == b.numero
    requires a.bairro == b.bairro && a.municipio == b.municipio && a.uf == b.uf && a.cep == b.cep
    ensures Present(Some(a)) == Present(Some(b))
  {
  }
}
