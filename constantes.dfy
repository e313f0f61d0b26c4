/** The status values of assets and of movement requests. */
module Constantes {

  /** `AGUARDANDO_APROVACAO`, `APROVADO`, `NAO_APROVADO` and `BLOQUEADO`. */
  datatype StatusBem = AguardandoAprovacao | Aprovado | NaoAprovado | Bloqueado

  /**
   * `ENVIADA`, `ACEITA` and `REJEITADA`, plus the cancelled state that the
   * movement tests exercise.
   */
  datatype StatusMovimentacao = Enviada | Aceita | Rejeitada | Cancelada
}
