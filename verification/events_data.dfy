/** The programme of the festival: for each day of the calendar, its main event. */
module EventsData {

  /** An event: its name, its time as displayed, a description, and its animation tag. */
  datatype EventData = EventData(name: string, time: string, description: string, animation: string)

  /**
   * eventsData, keyed by day of the month: 22 and 28 are February days, the
   * others are days of March.
   */
  const Events: map<int, EventData> := map[
    22 := EventData("Despertà, Crida y Exposición del Ninot", "07:00 / 19:30",
      "💥 Despertà Infantil (07:00) - Macrodespertà (07:30) - 🏰 Crida en Torres de Serranos (19:30) - 🎨 Exposición del Ninot (10:00-20:00)",
      "desperta"),
    28 := EventData("Cabalgata del Ninot + Pólvora a la Vespra", "17:30-21:00",
      "🎭 Cabalgata del Ninot (17:30-20:00, 2.5h) - 🎆 Pólvora a la Vespra (20:00, 20:30, 21:00)",
      "cabalgata"),
    1 := EventData("Mascletà", "14:00",
      "💥 Mascletà diaria en Plaza del Ayuntamiento",
      "mascletà"),
    2 := EventData("Mascletà", "14:00",
      "💥 Mascletà diaria en Plaza del Ayuntamiento",
      "mascletà"),
    3 := EventData("Mascletà", "14:00",
      "💥 Mascletà diaria en Plaza del Ayuntamiento",
      "mascletà"),
    4 := EventData("Mascletà", "14:00",
      "💥 Mascletà diaria en Plaza del Ayuntamiento",
      "mascletà"),
    5 := EventData("Mascletà", "14:00",
      "💥 Mascletà diaria en Plaza del Ayuntamiento",
      "mascletà"),
    6 := EventData("Mascletà", "14:00",
      "💥 Mascletà diaria en Plaza del Ayuntamiento",
      "mascletà"),
    7 := EventData("Mascletà, Pólvora y Calles Iluminadas", "14:00 / 20:00",
      "💥 Mascletà (14:00) - 🎆 Pólvora (20:00, IVAM) - 💡 Inicio Concurso Calles Iluminadas",
      "mascletà"),
    8 := EventData("San Juan de Dios + Calles Iluminadas", "10:00 / 20:00",
      "🚒 Festividad del patrón de los bomberos - 💥 Mascletà (14:00) - 💡 Calles Iluminadas (20:00-23:00)",
      "mascletà"),
    9 := EventData("Mascletà + Calles Iluminadas", "14:00 / 20:00",
      "💥 Mascletà diaria (14:00) - 💡 Calles Iluminadas (20:00-23:00)",
      "mascletà"),
    10 := EventData("Mascletà + Calles Iluminadas", "14:00 / 20:00",
      "💥 Mascletà diaria (14:00) - 💡 Calles Iluminadas (20:00-23:00)",
      "mascletà"),
    11 := EventData("Mascletà + Calles Iluminadas", "14:00 / 20:00",
      "💥 Mascletà diaria (14:00) - 💡 Calles Iluminadas (20:00-23:00)",
      "mascletà"),
    12 := EventData("Mascletà + Calles Iluminadas", "14:00 / 20:00",
      "💥 Mascletà diaria (14:00) - 💡 Calles Iluminadas (20:00-23:00)",
      "mascletà"),
    13 := EventData("Mascletà, Bailes y Calles Iluminadas", "14:00 / 20:00",
      "💥 Mascletà (14:00) - 💃 Muestra de bailes (20:00) - 💡 Calles Iluminadas (20:00-23:00)",
      "mascletà"),
    14 := EventData("Exposición del Ninot + Calles Iluminadas", "14:00 / 20:00",
      "💥 Mascletà (14:00) - 🏆 Proclamación Ninot Indultat Infantil (17:00) - 💡 Calles Iluminadas",
      "mascletà"),
    15 := EventData("Plantà Infantiles, L'Alba y Calles Iluminadas", "09:00 / 23:59",
      "🏗️ Plantà infantiles (09:00) - 💡 Calles Iluminadas (20:00-23:00) - 🎆 L'Alba (23:59)",
      "mascletà"),
    16 := EventData("Plantà Grandes, Castillo y Calles Iluminadas", "08:00 / 23:59",
      "🏗️ Plantà grandes (08:00) - 💡 Calles Iluminadas (20:00-23:00) - 🎆 Castillo (23:59)",
      "mascletà"),
    17 := EventData("Ofrenda (Día 1) + Calles Iluminadas", "15:30-01:00",
      "🌸 Ofrenda a la Virgen - 💡 Calles Iluminadas (20:00-23:00)",
      "ofrenda"),
    18 := EventData("Ofrenda (Día 2), Nit del Foc y Calles Iluminadas", "15:30 / 23:59",
      "🌸 Ofrenda (15:30-01:00) - 💡 Calles Iluminadas (20:00-23:00) - 🎇 Nit del Foc (23:59)",
      "ofrenda"),
    19 := EventData("La Cremà + Calles Iluminadas (Último Día)", "19:00-23:00",
      "🔥 Cabalgata del Fuego (19:00-20:00) - 💡 Calles Iluminadas - Cremà Infantiles (20:00) - Cremà Grandes (22:00)",
      "cremà")
  ]

  /** The days with an event: 1 to 19 March and 22 and 28 February. */
  lemma {:induction false} EventDays(day: int)
    ensures day in Events <==> (1 <= day <= 19 || day == 22 || day == 28)
  {
  }

  /** The animation tag of each day. */
  lemma {:induction false} EventTags(day: int)
    requires day in Events
    ensures day == 22 ==> Events[day].animation == "desperta"
    ensures day == 28 ==> Events[day].animation == "cabalgata"
    ensures 1 <= day <= 16 ==> Events[day].animation == "mascletà"
    ensures (day == 17 || day == 18) ==> Events[day].animation == "ofrenda"
    ensures day == 19 ==> Events[day].animation == "cremà"
  {
  }

  predicate IsKnownTag(tag: string) {
    tag == "desperta" || tag == "cabalgata" || tag == "mascletà" || tag == "ofrenda" || tag == "cremà"
  }

  /** Every tag of the table is one of five. */
  lemma {:induction false} EveryTagKnown(day: int)
    requires day in Events
    ensures IsKnownTag(Events[day].animation)
  {
  }
}
