/** The record type of the pipeline (src/io/schemas.py) and the configured
    column-name candidates (src/config.py). */
module Schemas {

  /** One input row: its identifier and its free text. */
  datatype Record = Record(id: string, text: string)

  /** Column names accepted for the text, in priority order. */
  const TextColumnCandidates: seq<string> := [
    "texto mascarado", "texto", "mensagem", "pedido", "descricao", "descrição",
    "conteudo", "conteúdo", "manifestacao", "manifestação"]

  /** Column names accepted for the identifier, in priority order. */
  const IdColumnCandidates: seq<string> := ["id", "protocolo", "numero", "número"]

}
