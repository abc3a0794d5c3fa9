/**
 * The admin pages' two translation tables, the `t` lookup with its English fallback, and the
 * browser-language choice.
 */
module Translations {
  import opened Wrappers
  import opened Text

  datatype Language = En | Ru

  /** The keys of the English table; the Russian table has the same keys. */
  datatype TranslationKey =
    | ActivationKeys
    | ManageActivationKeys
    | Key
    | Product
    | Variant
    | Sku
    | Status
    | Created
    | Used
    | Available
    | BulkImport
    | AddKey
    | Cancel
    | Delete
    | AddActivationKey
    | BulkImportActivationKeys
    | ProductVariant
    | ActivationKey
    | SearchProductVariant
    | EnterActivationKey
    | SearchProductsAndVariants
    | LoadingActivationKeys
    | NoActivationKeysFound
    | ActivationKeyDeletedSuccessfully
    | ActivationKeyAddedSuccessfully
    | PleaseSelectVariantAndEnterKey
    | Adding
    | SearchingVariants
    | NoVariantsFound
    | ConfirmDeleteActivationKey
    | FailedToLoadActivationKeys
    | FailedToDeleteActivationKey
    | FailedToAddActivationKey
    | UnknownProduct
    | DefaultVariant

  /** The English table. */
  function English(k: TranslationKey): string {
    match k
    case ActivationKeys => "Activation Keys"
    case ManageActivationKeys => "Manage activation keys for product variants"
    case Key => "Key"
    case Product => "Product"
    case Variant => "Variant"
    case Sku => "SKU"
    case Status => "Status"
    case Created => "Created"
    case Used => "Used"
    case Available => "Available"
    case BulkImport => "Bulk Import"
    case AddKey => "Add Key"
    case Cancel => "Cancel"
    case Delete => "Delete"
    case AddActivationKey => "Add Activation Key"
    case BulkImportActivationKeys => "Bulk Import Activation Keys"
    case ProductVariant => "Product Variant"
    case ActivationKey => "Activation Key"
    case SearchProductVariant => "Search for a product variant..."
    case EnterActivationKey => "Enter activation key"
    case SearchProductsAndVariants => "Search products and variants..."
    case LoadingActivationKeys => "Loading activation keys..."
    case NoActivationKeysFound => "No activation keys found. Add your first key to get started."
    case ActivationKeyDeletedSuccessfully => "Activation key deleted successfully"
    case ActivationKeyAddedSuccessfully => "Activation key added successfully"
    case PleaseSelectVariantAndEnterKey => "Please select a variant and enter a key"
    case Adding => "Adding..."
    case SearchingVariants => "Searching variants..."
    case NoVariantsFound => "No variants found."
    case ConfirmDeleteActivationKey => "Are you sure you want to delete this activation key?"
    case FailedToLoadActivationKeys => "Failed to load activation keys"
    case FailedToDeleteActivationKey => "Failed to delete activation key"
    case FailedToAddActivationKey => "Failed to add activation key"
    case UnknownProduct => "Unknown Product"
    case DefaultVariant => "Default"
  }

  /** The Russian table. */
  function Russian(k: TranslationKey): string {
    match k
    case ActivationKeys => "Ключи активации"
    case ManageActivationKeys => "Управление ключами активации для вариантов товаров"
    case Key => "Ключ"
    case Product => "Товар"
    case Variant => "Вариант"
    case Sku => "Артикул"
    case Status => "Статус"
    case Created => "Создан"
    case Used => "Использован"
    case Available => "Доступен"
    case BulkImport => "Массовый импорт"
    case AddKey => "Добавить ключ"
    case Cancel => "Отмена"
    case Delete => "Удалить"
    case AddActivationKey => "Добавить ключ активации"
    case BulkImportActivationKeys => "Массовый импорт ключей активации"
    case ProductVariant => "Вариант товара"
    case ActivationKey => "Ключ активации"
    case SearchProductVariant => "Поиск варианта товара..."
    case EnterActivationKey => "Введите ключ активации"
    case SearchProductsAndVariants => "Поиск товаров и вариантов..."
    case LoadingActivationKeys => "Загрузка ключей активации..."
    case NoActivationKeysFound => "Ключи активации не найдены. Добавьте первый ключ для начала работы."
    case ActivationKeyDeletedSuccessfully => "Ключ активации успешно удален"
    case ActivationKeyAddedSuccessfully => "Ключ активации успешно добавлен"
    case PleaseSelectVariantAndEnterKey => "Пожалуйста, выберите вариант и введите ключ"
    case Adding => "Добавление..."
    case SearchingVariants => "Поиск вариантов..."
    case NoVariantsFound => "Варианты не найдены."
    case ConfirmDeleteActivationKey => "Вы уверены, что хотите удалить этот ключ активации?"
    case FailedToLoadActivationKeys => "Не удалось загрузить ключи активации"
    case FailedToDeleteActivationKey => "Не удалось удалить ключ активации"
    case FailedToAddActivationKey => "Не удалось добавить ключ активации"
    case UnknownProduct => "Неизвестный товар"
    case DefaultVariant => "По умолчанию"
  }

  /** `translations[language][key]`. */
  function Entry(language: Language, k: TranslationKey): string {
    match language
    case En => English(k)
    case Ru => Russian(k)
  }

  /** `t(key)`: the selected language's entry, or the English one when that entry is empty. */
  function T(language: Language, k: TranslationKey): (s: string)
    ensures Entry(language, k) != [] ==> s == Entry(language, k)
    ensures Entry(language, k) == [] ==> s == English(k)
  {
    if Entry(language, k) != [] then Entry(language, k) else English(k)
  }

  /** With English selected, `t` is the English table. */
  lemma TEnglish(k: TranslationKey)
    ensures T(En, k) == English(k)
  {
  }

  lemma EnglishFilled(k: TranslationKey)
    ensures English(k) != []
  {
    match k
    case ActivationKeys =>
    case ManageActivationKeys =>
    case Key =>
    case Product =>
    case Variant =>
    case Sku =>
    case Status =>
    case Created =>
    case Used =>
    case Available =>
    case BulkImport =>
    case AddKey =>
    case Cancel =>
    case Delete =>
    case AddActivationKey =>
    case BulkImportActivationKeys =>
    case ProductVariant =>
    case ActivationKey =>
    case SearchProductVariant =>
    case EnterActivationKey =>
    case SearchProductsAndVariants =>
    case LoadingActivationKeys =>
    case NoActivationKeysFound =>
    case ActivationKeyDeletedSuccessfully =>
    case ActivationKeyAddedSuccessfully =>
    case PleaseSelectVariantAndEnterKey =>
    case Adding =>
    case SearchingVariants =>
    case NoVariantsFound =>
    case ConfirmDeleteActivationKey =>
    case FailedToLoadActivationKeys =>
    case FailedToDeleteActivationKey =>
    case FailedToAddActivationKey =>
    case UnknownProduct =>
    case DefaultVariant =>
  }

  lemma RussianFilled(k: TranslationKey)
    ensures Russian(k) != []
  {
    match k
    case ActivationKeys =>
    case ManageActivationKeys =>
    case Key =>
    case Product =>
    case Variant =>
    case Sku =>
    case Status =>
    case Created =>
    case Used =>
    case Available =>
    case BulkImport =>
    case AddKey =>
    case Cancel =>
    case Delete =>
    case AddActivationKey =>
    case BulkImportActivationKeys =>
    case ProductVariant =>
    case ActivationKey =>
    case SearchProductVariant =>
    case EnterActivationKey =>
    case SearchProductsAndVariants =>
    case LoadingActivationKeys =>
    case NoActivationKeysFound =>
    case ActivationKeyDeletedSuccessfully =>
    case ActivationKeyAddedSuccessfully =>
    case PleaseSelectVariantAndEnterKey =>
    case Adding =>
    case SearchingVariants =>
    case NoVariantsFound =>
    case ConfirmDeleteActivationKey =>
    case FailedToLoadActivationKeys =>
    case FailedToDeleteActivationKey =>
    case FailedToAddActivationKey =>
    case UnknownProduct =>
    case DefaultVariant =>
  }

  /** Every entry of both tables is filled in, so `t` never falls back and never gives "". */
  lemma TablesComplete(language: Language, k: TranslationKey)
    ensures T(language, k) == Entry(language, k) && T(language, k) != []
  {
    EnglishFilled(k);
    RussianFilled(k);
  }

  /**
   * `getBrowserLanguage`: Russian when the browser's language, lowercased, starts with "ru";
   * English otherwise and when there is no browser (`None`).
   */
  function BrowserLanguage(navigatorLanguage: Option<string>): (l: Language)
    ensures l == Ru <==> navigatorLanguage.Some? && StartsWith(Lower(navigatorLanguage.value), "ru")
  {
    if navigatorLanguage.Some? && StartsWith(Lower(navigatorLanguage.value), "ru") then Ru else En
  }

  /** The choice ignores letter case. */
  lemma BrowserLanguageIgnoresCase(s: string)
    ensures BrowserLanguage(Some(Upper(s))) == BrowserLanguage(Some(s))
  {
    LowerOfUpper(s);
  }

  /** The choice looks only at the first two characters. */
  lemma BrowserLanguageByPrefix(s: string, rest: string)
    requires |s| == 2
    ensures BrowserLanguage(Some(s + rest)) == BrowserLanguage(Some(s))
  {
    assert Lower(s + rest)[..2] == Lower(s);
  }
}
