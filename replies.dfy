/** What the bot answers, as categories rather than texts, and the rule `handle_file`
    uses to pick the answer for an exception raised while saving a photo. */
module Replies {
  import opened Values
  import opened Text
  import opened Files

  /** The answer a handler sends; texts with several wordings but one meaning share a
      category. `NoReply` marks a handler that raised before answering. */
  datatype Reply =
    | Welcome                          // /start: share your contact
    | Instructions                     // the help text
    | AskToAuthorize                   // not authorised yet: share your contact
    | ShowPhone(phone: string)         // "📱 Телефон: ..."
    | OwnContactOnly                   // "send your own contact"
    | AuthSuccess                      // "✅ Успешная авторизация!"
    | NumberNotFound                   // "❌ Ваш номер не найден ..."
    | ContactCheckFailed               // "an error occurred while checking your number"
    | StoreSchedule                    // whatever `schedule` answers
    | ShopNameSaved(shopName: Value)   // "Название магазина '...' сохранено."
    | MainMenu                         // "Возвращаемся в главное меню."
    | AskTypePhoto                     // "📍 Геолокация получена! ..."
    | BackToLocation                   // "Возвращаемся к отправке геолокации."
    | AskCompetitorBrand(typePhoto: string)
    | AskOrimiBrand(typePhoto: string)
    | AskFileType                      // "... Теперь выберите тип файла."
    | BackToTypePhoto                  // "Возвращаемся к выбору типа фото."
    | AskCount(brand: string)          // "Введите количество товаров конкурентов:"
    | StoreNotRegistered               // "Ваш магазин не зарегистрирован."
    | DataSaved                        // "Данные успешно сохранены!"
    | NotANumber                       // "Введите число, а не что-то другое:"
    | SendLocationFirst                // "Сначала отправьте геолокацию."
    | FileSaved                        // "✅ Файл успешно сохранен"
    | StalePhoto                       // "❌ Фото сделано более 5 минут назад. ..."
    | MissingMetadata                  // "❌ Фото не содержит необходимые метаданные (EXIF). ..."
    | SaveFailed                       // "❌ Ошибка при сохранении файла."
    | UnknownError                     // "❗ Неизвестная ошибка."
    | UseMenu                          // "Используйте кнопки меню для навигации."
    | NoReply

  const STALE_MARK: string := "более 5 минут назад"
  const EXIF_MARK: string := "EXIF данные отсутствуют"
  const METADATA_MARK: string := "метаданные отсутствуют"

  /** The answer to an exception raised while saving a photo, by first match: the stale
      mark; then the EXIF mark, or the metadata mark in the lower-cased message; then the
      generic failure. */
  function FileErrorReply(error: string): (r: Reply)
    ensures r in {StalePhoto, MissingMetadata, SaveFailed}
    ensures r == StalePhoto <==> Contains(error, STALE_MARK)
    ensures r == MissingMetadata <==>
      !Contains(error, STALE_MARK) && (Contains(error, EXIF_MARK) || Contains(Lower(error), METADATA_MARK))
  {
    if Contains(error, STALE_MARK) then StalePhoto
    else if Contains(error, EXIF_MARK) || Contains(Lower(error), METADATA_MARK) then MissingMetadata
    else SaveFailed
  }

  /** The error `download_file` raises for a photo that fails the provenance check holds
      the stale mark, so every rejected photo, whether it is old or simply has no
      metadata, is answered as a stale photo. */
  lemma RejectionSelectsStale()
    ensures FileErrorReply(REJECTION) == StalePhoto
  {
    var before := "Фото не содержит необходимые метаданные или было сделано ";
    assert REJECTION == before + STALE_MARK + ".";
    ContainsMiddle(before, STALE_MARK, ".");
  }

  /** A message of ASCII letters, punctuation and digits without 'E' holds none of the
      three marks. */
  lemma {:induction false} PlainAsciiSelectsGeneric(error: string)
    requires forall i :: 0 <= i < |error| ==> error[i] < '\U{0080}' && error[i] != 'E'
    ensures FileErrorReply(error) == SaveFailed
  {
    NotContainsWithoutFirst(error, STALE_MARK);
    NotContainsWithoutFirst(error, EXIF_MARK);
    var lower := Lower(error);
    assert forall i :: 0 <= i < |lower| ==> lower[i] < '\U{0080}';
    NotContainsWithoutFirst(lower, METADATA_MARK);
  }

  /** A download that answers with a status other than 200 is reported as a generic
      failure to save. */
  lemma DownloadStatusSelectsGeneric(status: nat)
    ensures FileErrorReply("Failed to download file: " + DecimalText(status)) == SaveFailed
  {
    var prefix := "Failed to download file: ";
    var digits := DecimalText(status);
    var error := prefix + digits;
    forall i | 0 <= i < |error|
      ensures error[i] < '\U{0080}' && error[i] != 'E'
    {
      if i < |prefix| {
        assert error[i] == prefix[i];
      } else {
        assert error[i] == digits[i - |prefix|];
      }
    }
    PlainAsciiSelectsGeneric(error);
  }

  /** A missing "id" in the agent's or the store's record raises a KeyError whose text is
      the quoted key, which is answered as a generic failure to save. */
  lemma MissingIdSelectsGeneric()
    ensures FileErrorReply("'id'") == SaveFailed
  {
    PlainAsciiSelectsGeneric("'id'");
  }
}
