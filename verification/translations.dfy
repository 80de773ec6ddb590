/** The few entries of the translation table that the application's logic depends on. */
module Translations {
  import opened Types

  /** The `saveBtn` label of each language. */
  function SaveButtonLabel(l: Lang): string {
    match l
    case Pt => "Salvar no Meu Caderno"
    case En => "Save to My Notebook"
    case Es => "Guardar en Mi Cuaderno"
    case Fr => "Enregistrer dans Mon Carnet"
    case It => "Salva nel Mio Quaderno"
    case De => "In Mein Notizbuch Speichern"
    case Ja => "マイノートに保存"
    case Ko => "내 노트에 저장"
  }

  /** Every language has its own save label, so the label identifies the language. */
  lemma SaveButtonLabelInjective(a: Lang, b: Lang)
    ensures SaveButtonLabel(a) == SaveButtonLabel(b) ==> a == b
  {
  }

  /** The `error` text of each language, shown when generation fails. */
  function ErrorText(l: Lang): string {
    match l
    case Pt => "Erro ao processar. Verifique os dados e tente novamente."
    case En => "Error processing. Please check data and try again."
    case Es => "Error al procesar. Verifica los datos e inténtalo de nuevo."
    case Fr => "Erreur de traitement. Vérifiez les données et réessayez."
    case It => "Errore durante l'elaborazione. Controlla i dati e riprova."
    case De => "Fehler bei der Verarbeitung. Daten prüfen und erneut versuchen."
    case Ja => "処理中にエラーが発生しました。データを確認して再試行してください。"
    case Ko => "처리 중 오류가 발생했습니다. 데이터를 확인하고 다시 시도하세요."
  }

  /** The keys of `cookingMethods`, in declaration order (the same in every language). */
  const CookingMethodKeys: seq<string> :=
    ["Stove", "Oven", "AirFryer", "Microwave", "Grill", "PressureCooker"]

  /** The keys of `utensils`, in declaration order (the same in every language). */
  const UtensilKeys: seq<string> :=
    ["Pot", "FryingPan", "DeepPan", "Wok", "BakingSheet", "GlassDish",
     "Blender", "FoodProcessor", "Mixer", "GrillPan", "ClayPot"]

  /** What the cooking-method picker can hand on: one of its option keys. */
  type MethodKey = m: string | m in CookingMethodKeys witness "Stove"

  /** What the utensil picker can hand on: one of its option keys. */
  type UtensilKey = u: string | u in UtensilKeys witness "Pot"
}
